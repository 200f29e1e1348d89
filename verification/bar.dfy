/** One OHLCV bar: its time span and the two ways it absorbs newer data
    (another bar, or a single traded price). */
module Bars {
  import opened Prelude
  import opened TimeFrames

  /** `valid` is false only for the placeholder bars standing in for missing data. */
  datatype Bar = Bar(
    interval: TimeFrame,
    openTime: int,
    open: real,
    close: real,
    high: real,
    low: real,
    volume: real,
    valid: bool)

  /** First second after the bar (the open time of the bar that follows it). */
  function CloseTime(b: Bar): int
  {
    b.openTime + Seconds(b.interval)
  }

  /** Placeholder for a bar with no data: zero prices and volume, not valid. */
  function Placeholder(interval: TimeFrame, timeSeconds: int): Bar
  {
    Bar(interval, timeSeconds, 0.0, 0.0, 0.0, 0.0, 0.0, false)
  }

  /** Copy of `other` under another interval; the copy is valid (the primary
      constructor's default) whatever `other` was. */
  function Retag(timeFrame: TimeFrame, other: Bar): (r: Bar)
    ensures r.interval == timeFrame && r.valid
    ensures r.openTime == other.openTime && r.volume == other.volume
    ensures r.open == other.open && r.close == other.close
    ensures r.high == other.high && r.low == other.low
  {
    Bar(timeFrame, other.openTime, other.open, other.close, other.high, other.low, other.volume, true)
  }

  /** `bar += otherBar`: the later bar extends this one. */
  function Merge(b: Bar, other: Bar): (r: Bar)
    ensures r.interval == b.interval && r.openTime == b.openTime
    ensures r.open == b.open && r.valid == b.valid
    ensures r.close == other.close
    ensures r.volume == b.volume + other.volume
    ensures r.high >= b.high && r.high >= other.high && (r.high == b.high || r.high == other.high)
    ensures r.low <= b.low && r.low <= other.low && (r.low == b.low || r.low == other.low)
  {
    b.(close := other.close,
       volume := b.volume + other.volume,
       high := if other.high > b.high then other.high else b.high,
       low := if other.low < b.low then other.low else b.low)
  }

  /** `bar += price`: a traded price extends the bar; an open of exactly 0.0
      is taken as "not yet set". */
  function AddPrice(b: Bar, price: real): (r: Bar)
    ensures r.close == price
    ensures r.open == (if b.open == 0.0 then price else b.open)
    ensures r.high >= b.high && r.high >= price && (r.high == b.high || r.high == price)
    ensures r.low <= b.low && r.low <= price && (r.low == b.low || r.low == price)
    ensures r.interval == b.interval && r.openTime == b.openTime
    ensures r.volume == b.volume && r.valid == b.valid
  {
    b.(close := price,
       open := if b.open == 0.0 then price else b.open,
       high := if price > b.high then price else b.high,
       low := if price < b.low then price else b.low)
  }

  /** Whether `timestamp` (seconds) falls in the half-open span of the bar. */
  predicate IncludesTimestamp(b: Bar, timestamp: int)
  {
    b.openTime <= timestamp < CloseTime(b)
  }

  /** A bar spans exactly its interval: it holds its own open time and the
      last second before its close, and not the next bar's open time. */
  lemma BarSpansItsInterval(b: Bar)
    ensures CloseTime(b) - b.openTime == Seconds(b.interval)
    ensures IncludesTimestamp(b, b.openTime)
    ensures IncludesTimestamp(b, CloseTime(b) - 1)
    ensures !IncludesTimestamp(b, CloseTime(b))
    ensures !IncludesTimestamp(b, b.openTime - 1)
  {
  }

  /** Two consecutive bars never claim the same second. */
  lemma ConsecutiveBarsAreDisjoint(a: Bar, b: Bar, t: int)
    requires b.openTime == CloseTime(a)
    ensures !(IncludesTimestamp(a, t) && IncludesTimestamp(b, t))
  {
  }

  /** Merging is associative, so folding a run of bars into one does not
      depend on how the run is grouped. */
  lemma MergeIsAssociative(a: Bar, b: Bar, c: Bar)
    ensures Merge(Merge(a, b), c) == Merge(a, Merge(b, c))
  {
  }

  /** Merging keeps a well-ordered bar well ordered. */
  lemma MergeKeepsLowBelowHigh(a: Bar, b: Bar)
    requires a.low <= a.high && b.low <= b.high
    ensures Merge(a, b).low <= Merge(a, b).high
  {
  }

  /** After a price is added the bar's range covers that price. */
  lemma AddPriceCoversPrice(b: Bar, price: real)
    ensures AddPrice(b, price).low <= AddPrice(b, price).close <= AddPrice(b, price).high
  {
  }

  /** The placeholder carries no data. */
  lemma PlaceholderIsEmpty(interval: TimeFrame, timeSeconds: int)
    ensures Placeholder(interval, timeSeconds).openTime == timeSeconds
    ensures Placeholder(interval, timeSeconds).interval == interval
    ensures !Placeholder(interval, timeSeconds).valid
    ensures Placeholder(interval, timeSeconds).volume == 0.0
    ensures Placeholder(interval, timeSeconds).open == 0.0 && Placeholder(interval, timeSeconds).close == 0.0
    ensures Placeholder(interval, timeSeconds).high == 0.0 && Placeholder(interval, timeSeconds).low == 0.0
  {
  }

  /** Feeding a positive price into a placeholder sets open, close and high to
      it, but the low stays at the placeholder's 0.0. */
  lemma PriceIntoPlaceholderKeepsZeroLow(interval: TimeFrame, timeSeconds: int, price: real)
    requires price > 0.0
    ensures AddPrice(Placeholder(interval, timeSeconds), price).open == price
    ensures AddPrice(Placeholder(interval, timeSeconds), price).close == price
    ensures AddPrice(Placeholder(interval, timeSeconds), price).high == price
    ensures AddPrice(Placeholder(interval, timeSeconds), price).low == 0.0
  {
  }

  /** Re-tagging a valid bar under its own interval gives the bar back, and
      re-tagging twice is re-tagging once. */
  lemma RetagRoundTrip(b: Bar, tf: TimeFrame)
    ensures b.valid ==> Retag(b.interval, b) == b
    ensures Retag(b.interval, Retag(tf, b)) == Retag(b.interval, b)
  {
  }

  /** The five minute bar opened at 100 closes at 400 and holds 399. */
  lemma FiveMinuteBarExample()
    ensures CloseTime(Placeholder(MIN_5, 100)) == 400
    ensures IncludesTimestamp(Placeholder(MIN_5, 100), 399)
    ensures !IncludesTimestamp(Placeholder(MIN_5, 100), 400)
  {
  }
}
