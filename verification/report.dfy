/** The back-test report: figures derived from a finished ledger, the
    starting balance and the first and last prices of the simulated period. */
module Reports {
  import opened Prelude
  import opened SizedPositions
  import opened Ledgers

  datatype Report = Report(startingBalance: real, ledger: Ledger, startPrice: real, endPrice: real)

  /** `tradeCount`. */
  function TradeCount(r: Report): nat
  {
    |r.ledger.trades|
  }

  /** The trade count follows the ledger: each accepted trade adds one, and
      price updates and exits never add or drop a trade. */
  lemma TradeCountFollowsLedger(r: Report, t: Trade, price: real)
    ensures Ledgers.PlusAssign(r.ledger, t).Ok? ==>
      TradeCount(r.(ledger := Ledgers.PlusAssign(r.ledger, t).value)) == TradeCount(r) + 1
    ensures Ledgers.PlusAssign(r.ledger, t).Err? ==> Quantity(t) <= 0.0
    ensures TradeCount(r.(ledger := Ledgers.UpdateCurrentPrice(r.ledger, price))) == TradeCount(r)
    ensures TradeCount(r.(ledger := ExitActiveTrade(r.ledger))) == TradeCount(r)
  {
  }

  /** `profitLoss`: the sum of every trade's profit. */
  function TotalProfitLoss(r: Report): real
  {
    Sum(ProfitLosses(r.ledger.trades))
  }

  /** `finalBalance`: the ledger's balance. */
  function FinalBalance(r: Report): real
  {
    Balance(r.ledger)
  }

  /** The ledger balance is its initial balance plus the reported profit. */
  lemma FinalBalanceIsInitialPlusProfit(r: Report)
    ensures FinalBalance(r) == r.ledger.initialBalance + TotalProfitLoss(r)
    ensures |r.ledger.trades| == 0 ==> FinalBalance(r) == r.ledger.initialBalance
  {
  }

  /** `profitability`: profit over the starting balance; a zero starting
      balance makes the Double quotient non-finite. */
  function Profitability(r: Report): (res: Result<real>)
    ensures res.Err? <==> r.startingBalance == 0.0
    ensures res.Err? ==> res.failure == NotFinite
    ensures res.Ok? ==> res.value * r.startingBalance == TotalProfitLoss(r)
  {
    if r.startingBalance == 0.0 then Err(NotFinite)
    else Ok(TotalProfitLoss(r) / r.startingBalance)
  }

  /** When the ledger started from the report's starting balance, the final
      balance is that balance grown by the profitability. */
  lemma FinalBalanceFromProfitability(r: Report)
    requires r.startingBalance == r.ledger.initialBalance && r.startingBalance != 0.0
    ensures FinalBalance(r) == r.startingBalance * (1.0 + Profitability(r).value)
  {
    var p := Profitability(r).value;
    assert r.startingBalance * (1.0 + p) == r.startingBalance + p * r.startingBalance;
  }

  function Wins(ts: seq<Trade>): (r: seq<bool>)
    ensures |r| == |ts| && forall i :: 0 <= i < |ts| ==> r[i] == IsProfitable(ts[i])
  {
    seq(|ts|, i requires 0 <= i < |ts| => IsProfitable(ts[i]))
  }

  /** `winCount`: the number of profitable trades. */
  function WinCount(r: Report): (n: nat)
    ensures n <= TradeCount(r)
    ensures n == 0 <==> forall i :: 0 <= i < |r.ledger.trades| ==> !IsProfitable(r.ledger.trades[i])
  {
    CountTrue(Wins(r.ledger.trades))
  }

  /** The win count follows the ledger: an accepted trade adds one exactly
      when it is profitable, so the count is the number of profitable
      trades. */
  lemma WinCountAfterAppend(r: Report, t: Trade)
    requires Ledgers.PlusAssign(r.ledger, t).Ok?
    ensures WinCount(r.(ledger := Ledgers.PlusAssign(r.ledger, t).value))
         == WinCount(r) + (if IsProfitable(t) then 1 else 0)
  {
    var ts := Ledgers.PlusAssign(r.ledger, t).value.trades;
    assert ts == r.ledger.trades + [t];
    assert Wins(ts) == Wins(r.ledger.trades) + [IsProfitable(t)];
    CountTrueAppend(Wins(r.ledger.trades), IsProfitable(t));
  }

  /** `winRate`: the share of profitable trades; with no trade it is 0/0. */
  function WinRate(r: Report): (res: Result<real>)
    ensures res.Err? <==> TradeCount(r) == 0
    ensures res.Err? ==> res.failure == NotFinite
    ensures res.Ok? ==> 0.0 <= res.value <= 1.0
    ensures res.Ok? ==> res.value * TradeCount(r) as real == WinCount(r) as real
    ensures res.Ok? ==> (res.value == 0.0 <==> WinCount(r) == 0)
    ensures res.Ok? ==> (res.value == 1.0 <==> WinCount(r) == TradeCount(r))
  {
    if TradeCount(r) == 0 then Err(NotFinite)
    else
      Ok(Share(WinCount(r), TradeCount(r)))
  }

  /** The share `w / n` of a whole `n > 0`. */
  function Share(w: nat, n: nat): (q: real)
    requires w <= n && n > 0
    ensures 0.0 <= q <= 1.0 && q * n as real == w as real
    ensures q == 0.0 <==> w == 0
    ensures q == 1.0 <==> w == n
  {
    ShareInUnitInterval(w as real, n as real);
    w as real / n as real
  }

  /** `w / n` for `0 <= w <= n` is a share: in [0, 1], zero only for no
      part and one only for the whole. */
  lemma ShareInUnitInterval(w: real, n: real)
    requires 0.0 <= w <= n && n > 0.0
    ensures 0.0 <= w / n <= 1.0 && (w / n) * n == w
    ensures w / n == 0.0 <==> w == 0.0
    ensures w / n == 1.0 <==> w == n
  {
    QuotientBounds(w, 0.0, 1.0, n);
  }

  /** `buyAndHoldProfitability`: the relative price move over the period. */
  function BuyAndHoldProfitability(r: Report): (res: Result<real>)
    ensures res.Err? <==> r.startPrice == 0.0
    ensures res.Err? ==> res.failure == NotFinite
    ensures res.Ok? ==> r.startPrice * (1.0 + res.value) == r.endPrice
  {
    if r.startPrice == 0.0 then Err(NotFinite)
    else
      var q := (r.endPrice - r.startPrice) / r.startPrice;
      assert r.startPrice * q == r.endPrice - r.startPrice;
      Ok(q)
  }

  /** `vsBuyAndHold`: how much the strategy beat holding the asset. */
  function VsBuyAndHold(r: Report): (res: Result<real>)
    ensures res.Err? <==> r.startingBalance == 0.0 || r.startPrice == 0.0
    ensures res.Ok? ==> res.value + BuyAndHoldProfitability(r).value == Profitability(r).value
  {
    match (Profitability(r), BuyAndHoldProfitability(r))
    case (Ok(p), Ok(b)) => Ok(p - b)
    case (Err(f), _) => Err(f)
    case (_, Err(f)) => Err(f)
  }

  /** The strategy beats buy-and-hold exactly when it ends above where the
      same capital invested in the asset would have ended. */
  lemma BeatsBuyAndHoldIffEndsHigher(r: Report)
    requires r.startingBalance > 0.0 && r.startPrice != 0.0
    ensures VsBuyAndHold(r).value > 0.0 <==>
      r.startingBalance + TotalProfitLoss(r) > r.startingBalance * (1.0 + BuyAndHoldProfitability(r).value)
  {
    var p := Profitability(r).value;
    var b := BuyAndHoldProfitability(r).value;
    assert r.startingBalance + TotalProfitLoss(r) - r.startingBalance * (1.0 + b)
        == r.startingBalance * (p - b);
    PositiveFactorKeepsSign(r.startingBalance, p - b);
  }
}
