/** The risk-sized position used by the back-test ledger: it is sized from
    the account balance, the fraction of it put at risk and the broker's
    maximum leverage, pays a fee on each side, closes at its stop when the
    price touches it and at the current price when exited. */
module SizedPositions {
  import opened Prelude
  import TR = TradeRecords

  datatype CloseReason = TP | SL

  /** `exposure` is the largest fraction of `balanceIn` a trade may lose at
      its stop; `feeRate` is charged on the traded value, once per side. */
  datatype Position = Position(
    kind: TR.TradeType,
    timestamp: int,
    balanceIn: real,
    entryPrice: real,
    stopLoss: real,
    exposure: real,
    maxLever: real,
    feeRate: real,
    currentPrice: real,
    closeReason: Option<CloseReason>,
    exitPrice: Option<real>)

  /** Every sizing division is finite: non-zero entry price, a stop distinct
      from it, and a non-zero balance. */
  predicate WellSized(p: Position)
  {
    p.entryPrice != 0.0 && p.stopLoss != p.entryPrice && p.balanceIn != 0.0
  }

  type Trade = p: Position | WellSized(p)
    witness Position(TR.LONG, 0, 1.0, 1.0, 0.0, 0.0, 0.0, 0.0, 1.0, None, None)

  predicate IsOpen(p: Position)
  {
    p.closeReason.None?
  }

  /** Opens a position at its entry price. The stop is kept as given, on
      whichever side of the entry it lies; a zero entry, a stop at the entry
      or a zero balance would make the sizing non-finite. */
  function Open(kind: TR.TradeType, timestamp: int, balanceIn: real, entryPrice: real,
                stopLoss: real, exposure: real, maxLever: real, feeRate: real): (r: Result<Trade>)
    ensures r.Err? <==> entryPrice == 0.0 || stopLoss == entryPrice || balanceIn == 0.0
    ensures r.Err? ==> r.failure == NotFinite
    ensures r.Ok? ==> IsOpen(r.value) && r.value.exitPrice.None?
    ensures r.Ok? ==> r.value.stopLoss == stopLoss && r.value.entryPrice == entryPrice
    ensures r.Ok? ==> r.value.currentPrice == entryPrice && r.value.kind == kind
  {
    var p := Position(kind, timestamp, balanceIn, entryPrice, stopLoss, exposure, maxLever, feeRate,
                      entryPrice, None, None);
    if WellSized(p) then Ok(p) else Err(NotFinite)
  }

  // ---------------------------------------------------------------------
  // Sizing
  // ---------------------------------------------------------------------

  /** Distance from entry to stop as a fraction of the entry price. */
  function StopLossPercent(t: Trade): real
  {
    Abs(t.entryPrice - t.stopLoss) / t.entryPrice
  }

  /** Trade value that would lose exactly `exposure` of the balance at the
      stop. */
  function TheoriqTrade(t: Trade): real
  {
    var slp := StopLossPercent(t);
    assert slp * t.entryPrice == Abs(t.entryPrice - t.stopLoss);
    t.balanceIn * t.exposure / slp
  }

  /** The theoretical value capped by the broker's leverage; fees are not
      deducted. */
  function RealTrade(t: Trade): real
  {
    Min(TheoriqTrade(t), t.balanceIn * t.maxLever)
  }

  function Lever(t: Trade): real
  {
    RealTrade(t) / t.balanceIn
  }

  /** Amount lost at the stop, before fees. */
  function RiskValue(t: Trade): real
  {
    RealTrade(t) * StopLossPercent(t)
  }

  function Quantity(t: Trade): real
  {
    RealTrade(t) / t.entryPrice
  }

  lemma StopLossPercentIsNonZero(t: Trade)
    ensures StopLossPercent(t) != 0.0
    ensures StopLossPercent(t) * t.entryPrice == Abs(t.entryPrice - t.stopLoss)
  {
  }

  /** With positive inputs the sizing keeps every promise: the leverage never
      exceeds the maximum, the risk never exceeds the exposed part of the
      balance, and it reaches it exactly when the leverage cap does not bite;
      when the cap bites, the leverage sits at the cap and the risk stays
      strictly below the exposed balance. */
  lemma SizingRespectsLimits(t: Trade)
    requires t.balanceIn > 0.0 && t.entryPrice > 0.0 && t.exposure > 0.0 && t.maxLever > 0.0
    ensures 0.0 < RealTrade(t) <= t.balanceIn * t.maxLever
    ensures 0.0 < Lever(t) <= t.maxLever
    ensures RiskValue(t) <= t.balanceIn * t.exposure
    ensures TheoriqTrade(t) <= t.balanceIn * t.maxLever ==> RiskValue(t) == t.balanceIn * t.exposure
    ensures TheoriqTrade(t) > t.balanceIn * t.maxLever ==> Lever(t) == t.maxLever
    ensures TheoriqTrade(t) > t.balanceIn * t.maxLever ==> RiskValue(t) < t.balanceIn * t.exposure
  {
    StopLossPercentIsNonZero(t);
    CappedSize(t.balanceIn, t.exposure, t.maxLever, StopLossPercent(t));
  }

  /** The sizing rule on plain numbers: balance `b`, exposure `x`, maximum
      leverage `m` and stop fraction `slp`. */
  lemma CappedSize(b: real, x: real, m: real, slp: real)
    requires b > 0.0 && x > 0.0 && m > 0.0 && slp > 0.0
    ensures var size := Min(b * x / slp, b * m);
            && 0.0 < size <= b * m
            && 0.0 < size / b <= m
            && size * slp <= b * x
            && (b * x / slp <= b * m ==> size * slp == b * x)
            && (b * x / slp > b * m ==> size / b == m)
            && (b * x / slp > b * m ==> size * slp < b * x)
  {
    var theoriq := b * x / slp;
    assert theoriq * slp == b * x;
    assert b * x > 0.0;
    PositiveQuotient(b * x, slp);
    var size := Min(theoriq, b * m);
    assert size * slp <= theoriq * slp by {
      ProductMonotone(size, theoriq, slp);
    }
    PositiveQuotient(size, b);
    var lever := size / b;
    assert lever * b == size;
    QuotientMonotone(size, b * m, b);
    assert (b * m) / b == m;
    if theoriq > b * m {
      PositiveFactorKeepsSign(slp, theoriq - size);
      assert slp * (theoriq - size) == theoriq * slp - size * slp;
    }
  }

  lemma PositiveQuotient(a: real, d: real)
    requires a > 0.0 && d > 0.0
    ensures a / d > 0.0 && (a / d) * d == a
  {
    assert a / d == a * (1.0 / d);
  }

  lemma ProductMonotone(x: real, y: real, k: real)
    requires x <= y && k >= 0.0
    ensures x * k <= y * k
  {
    assert (y - x) * k >= 0.0;
  }

  lemma QuotientMonotone(x: real, y: real, k: real)
    requires x <= y && k > 0.0
    ensures x / k <= y / k
  {
    assert x / k == x * (1.0 / k) && y / k == y * (1.0 / k);
    ProductMonotone(x, y, 1.0 / k);
  }

  // ---------------------------------------------------------------------
  // Price updates and closing
  // ---------------------------------------------------------------------

  /** The price has reached the stop: at or below it for a LONG, at or above
      it for a SHORT. */
  predicate TouchesStop(t: Position, price: real)
  {
    match t.kind
    case LONG => price <= t.stopLoss
    case SHORT => price >= t.stopLoss
  }

  /** `updateCurrentPrice`: records the price; an open position whose stop
      the price touches is closed there with reason SL. A closed position is
      left as it is. */
  function UpdateCurrentPrice(t: Trade, price: real): (r: Trade)
    ensures !IsOpen(t) ==> r == t
    ensures IsOpen(t) ==> r.currentPrice == price
    ensures IsOpen(t) && TouchesStop(t, price) ==> r.closeReason == Some(SL) && r.exitPrice == Some(t.stopLoss)
    ensures IsOpen(t) && !TouchesStop(t, price) ==> IsOpen(r) && r.exitPrice == t.exitPrice
    ensures r.(currentPrice := t.currentPrice, closeReason := t.closeReason, exitPrice := t.exitPrice) == t
  {
    if !IsOpen(t) then t
    else if TouchesStop(t, price) then t.(currentPrice := price, closeReason := Some(SL), exitPrice := Some(t.stopLoss))
    else t.(currentPrice := price)
  }

  /** `exit()`: closes an open position at the current price with reason TP. */
  function Exit(t: Trade): (r: Result<Trade>)
    ensures r.Err? <==> !IsOpen(t)
    ensures r.Err? ==> r.failure == IllegalArgument
    ensures r.Ok? ==> r.value.closeReason == Some(TP) && r.value.exitPrice == Some(t.currentPrice)
    ensures r.Ok? ==> r.value.(closeReason := t.closeReason, exitPrice := t.exitPrice) == t
  {
    if !IsOpen(t) then Err(IllegalArgument)
    else Ok(t.(closeReason := Some(TP), exitPrice := Some(t.currentPrice)))
  }

  /** The price the position is valued at: its exit price once closed, the
      current price while open. */
  function MarkPrice(t: Trade): real
  {
    if t.exitPrice.Some? then t.exitPrice.value else t.currentPrice
  }

  function EntryFees(t: Trade): real
  {
    Quantity(t) * t.entryPrice * t.feeRate
  }

  function ExitFees(t: Trade): real
  {
    Quantity(t) * MarkPrice(t) * t.feeRate
  }

  function Fees(t: Trade): real
  {
    EntryFees(t) + ExitFees(t)
  }

  /** Price gain on the quantity, before fees. */
  function RawProfitLoss(t: Trade): real
  {
    match t.kind
    case LONG => Quantity(t) * (MarkPrice(t) - t.entryPrice)
    case SHORT => Quantity(t) * (t.entryPrice - MarkPrice(t))
  }

  /** `profitLoss`: the gain net of both fees, at the mark price. */
  function ProfitLoss(t: Trade): real
  {
    RawProfitLoss(t) - Fees(t)
  }

  function IsProfitable(t: Trade): bool
  {
    ProfitLoss(t) > 0.0
  }

  /** A position closes once and then stays as it is: further price updates
      change nothing and a second exit is refused; the sizing is never
      touched. */
  lemma ClosedPositionIsFrozen(t: Trade, price: real)
    ensures Exit(t).Ok? ==> UpdateCurrentPrice(Exit(t).value, price) == Exit(t).value
    ensures Exit(t).Ok? ==> Exit(Exit(t).value).Err?
    ensures !IsOpen(UpdateCurrentPrice(t, price)) ==> Exit(UpdateCurrentPrice(t, price)).Err?
    ensures RealTrade(UpdateCurrentPrice(t, price)) == RealTrade(t)
    ensures Quantity(UpdateCurrentPrice(t, price)) == Quantity(t)
  {
  }

  /** Exiting books exactly the profit the open position showed at its
      current price. */
  lemma ExitKeepsProfitLoss(t: Trade)
    requires IsOpen(t) && t.exitPrice.None?
    ensures ProfitLoss(Exit(t).value) == ProfitLoss(t)
  {
    var u := Exit(t).value;
    SameSizing(t, u);
    assert MarkPrice(u) == MarkPrice(t);
  }

  /** Stopped out with the stop on the losing side of the entry, the trade
      loses exactly its risk value plus both fees. */
  lemma StopOutLosesRiskPlusFees(t: Trade, price: real)
    requires IsOpen(t) && TouchesStop(t, price)
    requires t.kind == TR.LONG ==> t.stopLoss < t.entryPrice
    requires t.kind == TR.SHORT ==> t.stopLoss > t.entryPrice
    ensures ProfitLoss(UpdateCurrentPrice(t, price)) == -(RiskValue(t) + Fees(UpdateCurrentPrice(t, price)))
  {
    var s := UpdateCurrentPrice(t, price);
    var d := Abs(t.entryPrice - t.stopLoss);
    assert MarkPrice(s) == t.stopLoss;
    SameSizing(t, s);
    assert RawProfitLoss(s) == -(Quantity(t) * d);
    ScaledRatio(RealTrade(t), d, t.entryPrice);
  }

  /** The sizing reads only the opening parameters. */
  lemma SameSizing(t: Trade, u: Trade)
    requires t.balanceIn == u.balanceIn && t.entryPrice == u.entryPrice && t.stopLoss == u.stopLoss
    requires t.exposure == u.exposure && t.maxLever == u.maxLever
    ensures StopLossPercent(t) == StopLossPercent(u) && RealTrade(t) == RealTrade(u)
    ensures Quantity(t) == Quantity(u) && RiskValue(t) == RiskValue(u)
  {
    assert StopLossPercent(t) == StopLossPercent(u);
    assert TheoriqTrade(t) == TheoriqTrade(u);
  }

  /** `(r / e) * d == r * (d / e)`: the quantity times the stop distance is
      the trade value times the stop fraction. */
  lemma ScaledRatio(r: real, d: real, e: real)
    requires e != 0.0
    ensures (r / e) * d == r * (d / e)
  {
    assert r / e == r * (1.0 / e) && d / e == d * (1.0 / e);
  }

  // ---------------------------------------------------------------------
  // The recorded fixtures: balance 1000, 5% exposure, 0.1% fee per side,
  // entry 100, stop 0.2% away.
  // ---------------------------------------------------------------------

  function Fixture(kind: TR.TradeType, maxLever: real, stop: real): Result<Trade>
  {
    Open(kind, 0, 1000.0, 100.0, stop, 0.05, maxLever, 0.1 / 100.0)
  }

  /** Leverage 10 caps the 25000 theoretical trade at 10000, risking 20 on
      100 units; the stop is kept as given, even for a SHORT whose stop lies
      below its entry, which is sized like the LONG. */
  lemma CappedSizingFixtures()
    ensures Fixture(TR.LONG, 10.0, 99.8).Ok? && Fixture(TR.SHORT, 10.0, 100.2).Ok?
    ensures Fixture(TR.SHORT, 10.0, 99.8).Ok?
    ensures forall t :: t in [Fixture(TR.LONG, 10.0, 99.8).value, Fixture(TR.SHORT, 10.0, 99.8).value] ==>
      && StopLossPercent(t) == 0.002 && TheoriqTrade(t) == 25000.0 && RealTrade(t) == 10000.0
      && Lever(t) == 10.0 && RiskValue(t) == 20.0 && Quantity(t) == 100.0
    ensures Fixture(TR.LONG, 10.0, 99.8).value.stopLoss == 99.8
    ensures Fixture(TR.SHORT, 10.0, 100.2).value.stopLoss == 100.2
    ensures Quantity(Fixture(TR.SHORT, 10.0, 100.2).value) == 100.0
  {
  }

  /** Leverage 100 leaves the 25000 trade uncapped: lever 25, risk 50. */
  lemma UncappedSizingFixtures()
    ensures Fixture(TR.LONG, 100.0, 99.8).Ok? && Fixture(TR.SHORT, 100.0, 100.2).Ok?
    ensures forall t :: t in [Fixture(TR.LONG, 100.0, 99.8).value, Fixture(TR.SHORT, 100.0, 100.2).value] ==>
      && StopLossPercent(t) == 0.002 && TheoriqTrade(t) == 25000.0 && RealTrade(t) == 25000.0
      && Lever(t) == 25.0 && RiskValue(t) == 50.0
  {
  }

  /** A price through the stop (0 for the LONG, 500 for the SHORT) closes at
      the stop with reason SL, and the loss is the risk value plus fees. */
  lemma StopOutFixtures()
    ensures var t := UpdateCurrentPrice(Fixture(TR.LONG, 10.0, 99.8).value, 0.0);
            && t.exitPrice == Some(99.8) && t.closeReason == Some(SL)
            && Abs(ProfitLoss(t)) == RiskValue(t) + Fees(t)
    ensures var t := UpdateCurrentPrice(Fixture(TR.SHORT, 10.0, 100.2).value, 500.0);
            && t.exitPrice == Some(100.2) && t.closeReason == Some(SL)
            && Abs(ProfitLoss(t)) == RiskValue(t) + Fees(t)
  {
    var l := Fixture(TR.LONG, 10.0, 99.8).value;
    StopOutLosesRiskPlusFees(l, 0.0);
    var s := Fixture(TR.SHORT, 10.0, 100.2).value;
    StopOutLosesRiskPlusFees(s, 500.0);
  }

  /** Exited by hand: the LONG at 200 pays fees 10 + 20 and nets 9970; the
      SHORT at 0 pays 10 + 0 and nets 9990; both close with TP, in profit. */
  lemma ExitFixtures()
    ensures var t := Exit(UpdateCurrentPrice(Fixture(TR.LONG, 10.0, 99.8).value, 200.0));
            && t.Ok? && t.value.closeReason == Some(TP) && !IsOpen(t.value) && IsProfitable(t.value)
            && EntryFees(t.value) == 10.0 && ExitFees(t.value) == 20.0 && Fees(t.value) == 30.0
            && ProfitLoss(t.value) == 9970.0
    ensures var t := Exit(UpdateCurrentPrice(Fixture(TR.SHORT, 10.0, 100.2).value, 0.0));
            && t.Ok? && t.value.closeReason == Some(TP) && !IsOpen(t.value) && IsProfitable(t.value)
            && EntryFees(t.value) == 10.0 && ExitFees(t.value) == 0.0 && Fees(t.value) == 10.0
            && ProfitLoss(t.value) == 9990.0
  {
  }

  /** A SHORT whose stop lies below its entry is accepted, and the entry
      price itself already touches that stop. */
  lemma WrongSideShortStopsAtEntry()
    ensures var t := Fixture(TR.SHORT, 10.0, 99.8).value;
            && IsOpen(t) && TouchesStop(t, t.entryPrice)
            && UpdateCurrentPrice(t, t.entryPrice).closeReason == Some(SL)
  {
  }
}
