/** The simulated trade record: open until it is exited or stopped once,
    with a per-side profit sign and a trailing stop that only tightens. */
module TradeRecords {
  import opened Prelude

  datatype TradeType = LONG | SHORT

  datatype CloseReason = EXIT | STOP_LOSS

  /** A missing `closeReason` means the trade is still open. */
  datatype TradeRecord = TradeRecord(
    kind: TradeType,
    timestamp: Option<int>,
    entryPrice: real,
    amount: real,
    trailingStopDistance: real,
    stopLossPrice: real,
    closeReason: Option<CloseReason>,
    exitPrice: Option<real>)

  /** The record built with every constructor default. */
  const Default: TradeRecord := TradeRecord(LONG, None, 0.0, 0.0, 0.0, 0.0, None, None)

  predicate IsOpen(r: TradeRecord)
  {
    r.closeReason.None?
  }

  lemma DefaultIsOpen()
    ensures IsOpen(Default) && Default.exitPrice.None?
  {
  }

  /** Closes an open record with the given reason and price; refused
      (`require(isOpen)`) on a closed one. */
  function Close(r: TradeRecord, reason: CloseReason, price: real): (res: Result<TradeRecord>)
    ensures res.Err? <==> !IsOpen(r)
    ensures res.Err? ==> res.failure == IllegalArgument
    ensures res.Ok? ==> !IsOpen(res.value) && res.value.closeReason == Some(reason)
    ensures res.Ok? ==> res.value.exitPrice == Some(price)
    ensures res.Ok? ==> res.value.(closeReason := r.closeReason, exitPrice := r.exitPrice) == r
  {
    if !IsOpen(r) then Err(IllegalArgument)
    else Ok(r.(closeReason := Some(reason), exitPrice := Some(price)))
  }

  /** `exit(exitPrice)`. */
  function Exit(r: TradeRecord, price: real): Result<TradeRecord>
  {
    Close(r, EXIT, price)
  }

  /** `stop(exitPrice)`. */
  function Stop(r: TradeRecord, price: real): Result<TradeRecord>
  {
    Close(r, STOP_LOSS, price)
  }

  /** A record closes exactly once: after `exit` or `stop` succeeds, both
      fail; an open record always accepts them. */
  lemma ClosesExactlyOnce(r: TradeRecord, p: real, q: real)
    ensures IsOpen(r) <==> Exit(r, p).Ok? && Stop(r, p).Ok?
    ensures Exit(r, p).Ok? ==> Exit(Exit(r, p).value, q).Err? && Stop(Exit(r, p).value, q).Err?
    ensures Stop(r, p).Ok? ==> Exit(Stop(r, p).value, q).Err? && Stop(Stop(r, p).value, q).Err?
  {
  }

  /** `getUnrealizedProfitLoss(currentPrice)`: the gain if closed at that
      price; a LONG gains when the price rises, a SHORT when it falls. */
  function UnrealizedProfitLoss(r: TradeRecord, price: real): real
  {
    match r.kind
    case LONG => r.amount * (price - r.entryPrice)
    case SHORT => r.amount * (r.entryPrice - price)
  }

  /** `profitLoss`: needs an exit price (`requireNotNull`). */
  function ProfitLoss(r: TradeRecord): (res: Result<real>)
    ensures res.Err? <==> r.exitPrice.None?
    ensures res.Err? ==> res.failure == IllegalArgument
    ensures res.Ok? ==> res.value == UnrealizedProfitLoss(r, r.exitPrice.value)
  {
    if r.exitPrice.None? then Err(IllegalArgument)
    else
      var p := r.exitPrice.value;
      Ok(match r.kind
         case LONG => r.amount * (p - r.entryPrice)
         case SHORT => r.amount * (r.entryPrice - p))
  }

  /** `isProfitable`: exited above entry for a LONG, below for a SHORT. */
  function IsProfitable(r: TradeRecord): (res: Result<bool>)
    ensures res.Err? <==> r.exitPrice.None?
  {
    if r.exitPrice.None? then Err(IllegalArgument)
    else
      var p := r.exitPrice.value;
      Ok(match r.kind
         case LONG => p > r.entryPrice
         case SHORT => p < r.entryPrice)
  }

  /** With a positive amount a record is profitable exactly when its profit
      is positive. */
  lemma ProfitableIffPositiveProfit(r: TradeRecord)
    requires r.amount > 0.0 && r.exitPrice.Some?
    ensures IsProfitable(r).value <==> ProfitLoss(r).value > 0.0
  {
    var p := r.exitPrice.value;
    PositiveFactorKeepsSign(r.amount, p - r.entryPrice);
    PositiveFactorKeepsSign(r.amount, r.entryPrice - p);
  }

  /** The two sides are mirror images: at any price a SHORT gains what the
      same LONG loses; an exit at the entry price gains nothing. */
  lemma SidesAreMirrored(r: TradeRecord, price: real)
    ensures UnrealizedProfitLoss(r.(kind := SHORT), price) == -UnrealizedProfitLoss(r.(kind := LONG), price)
    ensures UnrealizedProfitLoss(r, r.entryPrice) == 0.0
  {
  }

  /** `updateTrailingStop(currentPrice)`: a LONG stop rises to
      `price - distance` when that is higher, a SHORT stop falls to
      `price + distance` when that is lower; nothing else changes. */
  function UpdateTrailingStop(r: TradeRecord, price: real): (res: TradeRecord)
    ensures res.(stopLossPrice := r.stopLossPrice) == r
    ensures r.kind == LONG ==> res.stopLossPrice == Max(r.stopLossPrice, price - r.trailingStopDistance)
    ensures r.kind == SHORT ==> res.stopLossPrice == Min(r.stopLossPrice, price + r.trailingStopDistance)
  {
    match r.kind
    case LONG =>
      if price - r.trailingStopDistance > r.stopLossPrice
      then r.(stopLossPrice := price - r.trailingStopDistance) else r
    case SHORT =>
      if price + r.trailingStopDistance < r.stopLossPrice
      then r.(stopLossPrice := price + r.trailingStopDistance) else r
  }

  /** The stop only ever tightens, ends within the trailing distance of the
      price, and a second update at the same price changes nothing. */
  lemma TrailingStopIsMonotone(r: TradeRecord, price: real)
    ensures r.kind == LONG ==> UpdateTrailingStop(r, price).stopLossPrice >= r.stopLossPrice
    ensures r.kind == LONG ==> UpdateTrailingStop(r, price).stopLossPrice >= price - r.trailingStopDistance
    ensures r.kind == SHORT ==> UpdateTrailingStop(r, price).stopLossPrice <= r.stopLossPrice
    ensures r.kind == SHORT ==> UpdateTrailingStop(r, price).stopLossPrice <= price + r.trailingStopDistance
    ensures UpdateTrailingStop(UpdateTrailingStop(r, price), price) == UpdateTrailingStop(r, price)
  {
  }

  /** `shouldStop(currentPrice)`: only for an open record; strictly beyond
      the stop, below it for a LONG and above it for a SHORT. */
  function ShouldStop(r: TradeRecord, price: real): (res: Result<bool>)
    ensures res.Err? <==> !IsOpen(r)
    ensures res.Err? ==> res.failure == IllegalArgument
  {
    if !IsOpen(r) then Err(IllegalArgument)
    else Ok(match r.kind
            case LONG => price < r.stopLossPrice
            case SHORT => price > r.stopLossPrice)
  }

  /** The stop fires strictly beyond it, below for a LONG and above for a
      SHORT; the price sitting exactly on the stop does not trigger it, and a
      stop the trailing update has just moved (at a non-negative distance)
      never triggers at the price that moved it. */
  lemma StopIsStrict(r: TradeRecord, price: real)
    requires IsOpen(r)
    ensures r.kind == LONG ==> (ShouldStop(r, price) == Ok(true) <==> price < r.stopLossPrice)
    ensures r.kind == SHORT ==> (ShouldStop(r, price) == Ok(true) <==> price > r.stopLossPrice)
    ensures ShouldStop(r, r.stopLossPrice) == Ok(false)
    ensures r.trailingStopDistance >= 0.0 && UpdateTrailingStop(r, price) != r ==>
      ShouldStop(UpdateTrailingStop(r, price), price) == Ok(false)
  {
  }
}
