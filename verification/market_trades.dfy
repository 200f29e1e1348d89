/** The raw trade tape of one symbol at one second resolution, and the
    one-second bars built from it. */
module MarketTrades {
  import opened Prelude
  import opened TimeFrames
  import opened Bars

  /** One executed trade; `timeMs` is epoch milliseconds. */
  datatype Trade = Trade(timeMs: int, price: real, size: real, liquidation: bool, side: string)

  datatype TradeHistory = TradeHistory(symbol: string, trades: seq<Trade>)

  /** `timeMs / 1000` on a Kotlin `Long`: the quotient is truncated toward
      zero, so a negative instant rounds up, not down. */
  function TimeSeconds(t: Trade): (s: int)
    ensures t.timeMs >= 0 ==> 0 <= s * 1000 <= t.timeMs < s * 1000 + 1000
    ensures t.timeMs < 0 ==> s * 1000 - 1000 < t.timeMs <= s * 1000 <= 0
  {
    if t.timeMs >= 0 then t.timeMs / 1000 else -((-t.timeMs) / 1000)
  }

  /** The truncating quotient differs from a floored one on negative instants
      that are not whole seconds. */
  lemma TimeSecondsTruncates()
    ensures TimeSeconds(Trade(1999, 0.0, 0.0, false, "buy")) == 1
    ensures TimeSeconds(Trade(-1999, 0.0, 0.0, false, "buy")) == -1
    ensures TimeSeconds(Trade(-2000, 0.0, 0.0, false, "buy")) == -2
  {
  }

  /** Every instant of a non-negative second maps back to that second. */
  lemma {:induction false} TimeSecondsOfWholeSecond(second: nat, ms: int, t: Trade)
    requires 0 <= ms < 1000 && t.timeMs == second * 1000 + ms
    ensures TimeSeconds(t) == second
  {
    DivisionUnique(t.timeMs, 1000, second);
  }

  /** `getTrades(second)`: the trades of that second, in tape order. */
  function TradesAt(ts: seq<Trade>, second: int): (r: seq<Trade>)
    ensures |r| <= |ts|
    ensures forall t :: t in r <==> t in ts && TimeSeconds(t) == second
  {
    if |ts| == 0 then []
    else
      assert forall t :: t in ts <==> t == ts[0] || t in ts[1..];
      (if TimeSeconds(ts[0]) == second then [ts[0]] else []) + TradesAt(ts[1..], second)
  }

  /** Filtering distributes over concatenation, so the selected trades keep
      their relative order. */
  lemma {:induction false} TradesAtAppend(a: seq<Trade>, b: seq<Trade>, second: int)
    ensures TradesAt(a + b, second) == TradesAt(a, second) + TradesAt(b, second)
  {
    if |a| > 0 {
      assert (a + b)[1..] == a[1..] + b;
      TradesAtAppend(a[1..], b, second);
    } else {
      assert a + b == b;
    }
  }

  function GetTrades(h: TradeHistory, second: int): seq<Trade>
  {
    TradesAt(h.trades, second)
  }

  /** Position of the first trade with the smallest `timeMs` (`minByOrNull`
      keeps the first of equal keys). */
  function EarliestIndex(ts: seq<Trade>): (i: nat)
    requires |ts| > 0
    ensures i < |ts|
    ensures forall j :: 0 <= j < |ts| ==> ts[i].timeMs <= ts[j].timeMs
    ensures forall j :: 0 <= j < i ==> ts[i].timeMs < ts[j].timeMs
  {
    if |ts| == 1 then 0
    else
      var k := EarliestIndex(ts[..|ts| - 1]);
      assert forall j :: 0 <= j < |ts| - 1 ==> ts[..|ts| - 1][j] == ts[j];
      if ts[|ts| - 1].timeMs < ts[k].timeMs then |ts| - 1 else k
  }

  /** Position of the first trade with the largest `timeMs` (`maxByOrNull`). */
  function LatestIndex(ts: seq<Trade>): (i: nat)
    requires |ts| > 0
    ensures i < |ts|
    ensures forall j :: 0 <= j < |ts| ==> ts[j].timeMs <= ts[i].timeMs
    ensures forall j :: 0 <= j < i ==> ts[j].timeMs < ts[i].timeMs
  {
    if |ts| == 1 then 0
    else
      var k := LatestIndex(ts[..|ts| - 1]);
      assert forall j :: 0 <= j < |ts| - 1 ==> ts[..|ts| - 1][j] == ts[j];
      if ts[|ts| - 1].timeMs > ts[k].timeMs then |ts| - 1 else k
  }

  /** The two postconditions of `EarliestIndex` pin the index down: any index
      meeting them is the one it returns. */
  lemma EarliestIndexIsUnique(ts: seq<Trade>, i: nat)
    requires |ts| > 0 && i < |ts|
    requires forall j :: 0 <= j < |ts| ==> ts[i].timeMs <= ts[j].timeMs
    requires forall j :: 0 <= j < i ==> ts[i].timeMs < ts[j].timeMs
    ensures EarliestIndex(ts) == i
  {
  }

  lemma LatestIndexIsUnique(ts: seq<Trade>, i: nat)
    requires |ts| > 0 && i < |ts|
    requires forall j :: 0 <= j < |ts| ==> ts[j].timeMs <= ts[i].timeMs
    requires forall j :: 0 <= j < i ==> ts[j].timeMs < ts[i].timeMs
    ensures LatestIndex(ts) == i
  {
  }

  function Prices(ts: seq<Trade>): (r: seq<real>)
    ensures |r| == |ts| && forall i :: 0 <= i < |ts| ==> r[i] == ts[i].price
  {
    seq(|ts|, i requires 0 <= i < |ts| => ts[i].price)
  }

  function Sizes(ts: seq<Trade>): (r: seq<real>)
    ensures |r| == |ts| && forall i :: 0 <= i < |ts| ==> r[i] == ts[i].size
  {
    seq(|ts|, i requires 0 <= i < |ts| => ts[i].size)
  }

  /** Price of the earliest trade, none for an empty list. */
  function OpenPrice(ts: seq<Trade>): Option<real>
  {
    if |ts| == 0 then None else Some(ts[EarliestIndex(ts)].price)
  }

  /** Price of the latest trade, none for an empty list. */
  function ClosePrice(ts: seq<Trade>): Option<real>
  {
    if |ts| == 0 then None else Some(ts[LatestIndex(ts)].price)
  }

  function HighPrice(ts: seq<Trade>): Option<real>
  {
    if |ts| == 0 then None else Some(MaxOf(Prices(ts)))
  }

  function LowPrice(ts: seq<Trade>): Option<real>
  {
    if |ts| == 0 then None else Some(MinOf(Prices(ts)))
  }

  function OrElse(o: Option<real>, fallback: real): real
  {
    if o.Some? then o.value else fallback
  }

  /** `getBar(second, previousBar)`: the one-second bar of the trades of that
      second; a second without trades repeats the previous bar's prices with
      zero volume. */
  function GetBar(h: TradeHistory, second: int, previous: Bar): (r: Bar)
    ensures r.interval == SEC_1 && r.openTime == second && r.valid
    ensures var ts := GetTrades(h, second);
            && r.volume == Sum(Sizes(ts))
            && (|ts| == 0 ==>
                  && r.open == previous.open && r.close == previous.close
                  && r.high == previous.high && r.low == previous.low
                  && r.volume == 0.0)
            && (|ts| > 0 ==>
                  && (forall t :: t in ts ==> r.low <= t.price <= r.high)
                  && (exists t :: t in ts && t.price == r.high)
                  && (exists t :: t in ts && t.price == r.low)
                  && r.open == ts[EarliestIndex(ts)].price
                  && r.close == ts[LatestIndex(ts)].price)
  {
    var ts := GetTrades(h, second);
    var r := Bar(SEC_1, second,
                 OrElse(OpenPrice(ts), previous.open),
                 OrElse(ClosePrice(ts), previous.close),
                 OrElse(HighPrice(ts), previous.high),
                 OrElse(LowPrice(ts), previous.low),
                 Sum(Sizes(ts)), true);
    if |ts| > 0 then
      assert ts[EarliestIndex(ts)] in ts && ts[LatestIndex(ts)] in ts;
      assert forall t :: t in ts ==> exists j :: 0 <= j < |ts| && ts[j] == t;
      r
    else
      r
  }

  /** A bar built from trades has its open and close inside its low-high
      range, and a non-negative volume when every trade size is. */
  lemma GetBarIsWellFormed(h: TradeHistory, second: int, previous: Bar)
    requires forall t :: t in h.trades ==> t.size >= 0.0
    ensures |GetTrades(h, second)| > 0 ==>
      GetBar(h, second, previous).low <= GetBar(h, second, previous).open <= GetBar(h, second, previous).high
    ensures |GetTrades(h, second)| > 0 ==>
      GetBar(h, second, previous).low <= GetBar(h, second, previous).close <= GetBar(h, second, previous).high
    ensures GetBar(h, second, previous).volume >= 0.0
  {
    var ts := GetTrades(h, second);
    SumNonNegative(Sizes(ts));
  }

  /** `addTrades`: the new trades go after the existing ones. */
  function AddTrades(h: TradeHistory, more: seq<Trade>): (r: TradeHistory)
    ensures r.symbol == h.symbol
    ensures |r.trades| == |h.trades| + |more|
    ensures r.trades[..|h.trades|] == h.trades && r.trades[|h.trades|..] == more
  {
    h.(trades := h.trades + more)
  }

  /** The trades of any second after `addTrades` are the old ones of that
      second followed by the new ones of that second. */
  lemma AddTradesExtendsEverySecond(h: TradeHistory, more: seq<Trade>, second: int)
    ensures GetTrades(AddTrades(h, more), second) == GetTrades(h, second) + TradesAt(more, second)
  {
    TradesAtAppend(h.trades, more, second);
  }

  /** Smallest second of the tape. */
  function MinSecond(ts: seq<Trade>): (s: int)
    requires |ts| > 0
    ensures forall i :: 0 <= i < |ts| ==> s <= TimeSeconds(ts[i])
    ensures exists i :: 0 <= i < |ts| && s == TimeSeconds(ts[i])
  {
    if |ts| == 1 then TimeSeconds(ts[0])
    else
      var rest := MinSecond(ts[1..]);
      assert forall i :: 1 <= i < |ts| ==> ts[1..][i - 1] == ts[i];
      if TimeSeconds(ts[0]) <= rest then TimeSeconds(ts[0]) else rest
  }

  /** Largest second of the tape. */
  function MaxSecond(ts: seq<Trade>): (s: int)
    requires |ts| > 0
    ensures forall i :: 0 <= i < |ts| ==> TimeSeconds(ts[i]) <= s
    ensures exists i :: 0 <= i < |ts| && s == TimeSeconds(ts[i])
  {
    if |ts| == 1 then TimeSeconds(ts[0])
    else
      var rest := MaxSecond(ts[1..]);
      assert forall i :: 1 <= i < |ts| ==> ts[1..][i - 1] == ts[i];
      if TimeSeconds(ts[0]) >= rest then TimeSeconds(ts[0]) else rest
  }

  /** `startTimeSeconds`: the first entry after sorting by second; `first()`
      throws on an empty tape. */
  function StartTimeSeconds(h: TradeHistory): (r: Result<int>)
    ensures r.Err? <==> |h.trades| == 0
    ensures r.Err? ==> r.failure == NoSuchElement
  {
    if |h.trades| == 0 then Err(NoSuchElement) else Ok(MinSecond(h.trades))
  }

  /** `endTimeSeconds`: the first entry after sorting by descending second. */
  function EndTimeSeconds(h: TradeHistory): (r: Result<int>)
    ensures r.Err? <==> |h.trades| == 0
    ensures r.Err? ==> r.failure == NoSuchElement
  {
    if |h.trades| == 0 then Err(NoSuchElement) else Ok(MaxSecond(h.trades))
  }

  /** On a non-empty tape every trade falls between the start and end
      seconds, both of which are seconds of actual trades; in particular
      the start is not after the end. */
  lemma TapeSpansStartToEnd(h: TradeHistory)
    requires |h.trades| > 0
    ensures StartTimeSeconds(h).Ok? && EndTimeSeconds(h).Ok?
    ensures StartTimeSeconds(h).value <= EndTimeSeconds(h).value
    ensures forall t :: t in h.trades ==>
      StartTimeSeconds(h).value <= TimeSeconds(t) <= EndTimeSeconds(h).value
    ensures |GetTrades(h, StartTimeSeconds(h).value)| > 0
    ensures |GetTrades(h, EndTimeSeconds(h).value)| > 0
  {
    var ts := h.trades;
    var lo, hi := MinSecond(ts), MaxSecond(ts);
    assert lo <= TimeSeconds(ts[0]) <= hi;
    var i :| 0 <= i < |ts| && lo == TimeSeconds(ts[i]);
    var k :| 0 <= k < |ts| && hi == TimeSeconds(ts[k]);
    assert ts[i] in GetTrades(h, lo);
    assert ts[k] in GetTrades(h, hi);
    forall t | t in ts
      ensures lo <= TimeSeconds(t) <= hi
    {
      var j :| 0 <= j < |ts| && ts[j] == t;
    }
  }
}
