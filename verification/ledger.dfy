/** The back-test ledger: an append-only list of sized positions over an
    initial balance, at most one of them driven at a time (the first one
    still open). */
module Ledgers {
  import opened Prelude
  import opened SizedPositions

  datatype Ledger = Ledger(initialBalance: real, trades: seq<Trade>)

  function ProfitLosses(ts: seq<Trade>): (r: seq<real>)
    ensures |r| == |ts| && forall i :: 0 <= i < |ts| ==> r[i] == ProfitLoss(ts[i])
  {
    seq(|ts|, i requires 0 <= i < |ts| => ProfitLoss(ts[i]))
  }

  function FeeList(ts: seq<Trade>): (r: seq<real>)
    ensures |r| == |ts| && forall i :: 0 <= i < |ts| ==> r[i] == Fees(ts[i])
  {
    seq(|ts|, i requires 0 <= i < |ts| => Fees(ts[i]))
  }

  /** `balance`: the initial balance plus every trade's profit, open trades
      valued at their current price. */
  function Balance(l: Ledger): real
  {
    l.initialBalance + Sum(ProfitLosses(l.trades))
  }

  /** `fees`: all fees paid or due. */
  function TotalFees(l: Ledger): real
  {
    Sum(FeeList(l.trades))
  }

  /** `ledger += trade`: only a trade with a positive quantity is accepted;
      it goes at the end. */
  function PlusAssign(l: Ledger, t: Trade): (r: Result<Ledger>)
    ensures r.Err? <==> !(Quantity(t) > 0.0)
    ensures r.Err? ==> r.failure == IllegalArgument
    ensures r.Ok? ==> r.value.initialBalance == l.initialBalance
    ensures r.Ok? ==> |r.value.trades| == |l.trades| + 1
    ensures r.Ok? ==> r.value.trades[..|l.trades|] == l.trades && r.value.trades[|l.trades|] == t
  {
    if Quantity(t) > 0.0 then Ok(l.(trades := l.trades + [t])) else Err(IllegalArgument)
  }

  /** Appending a trade moves the balance by exactly that trade's profit, and
      the fees by its fees. */
  lemma BalanceAfterAppend(l: Ledger, t: Trade)
    requires PlusAssign(l, t).Ok?
    ensures Balance(PlusAssign(l, t).value) == Balance(l) + ProfitLoss(t)
    ensures TotalFees(PlusAssign(l, t).value) == TotalFees(l) + Fees(t)
  {
    var ts := l.trades + [t];
    assert ProfitLosses(ts) == ProfitLosses(l.trades) + [ProfitLoss(t)];
    assert FeeList(ts) == FeeList(l.trades) + [Fees(t)];
    SumAppend(ProfitLosses(l.trades), [ProfitLoss(t)]);
    SumAppend(FeeList(l.trades), [Fees(t)]);
  }

  /** Index of the first open trade, if any. */
  function ActiveIndex(ts: seq<Trade>): (r: Option<nat>)
    ensures r.None? <==> forall i :: 0 <= i < |ts| ==> !IsOpen(ts[i])
    ensures r.Some? ==> r.value < |ts| && IsOpen(ts[r.value])
    ensures r.Some? ==> forall i :: 0 <= i < r.value ==> !IsOpen(ts[i])
  {
    if |ts| == 0 then None
    else if IsOpen(ts[0]) then Some(0)
    else
      var rest := ActiveIndex(ts[1..]);
      assert forall i :: 1 <= i < |ts| ==> ts[1..][i - 1] == ts[i];
      if rest.None? then None else Some(rest.value + 1)
  }

  /** `activeTrade`: the first open trade in list order. */
  function ActiveTrade(l: Ledger): (r: Option<Trade>)
    ensures r.None? <==> forall i :: 0 <= i < |l.trades| ==> !IsOpen(l.trades[i])
    ensures r.Some? ==> IsOpen(r.value) && r.value in l.trades
    ensures r.Some? <==> ActiveIndex(l.trades).Some?
    ensures r.Some? ==> r.value == l.trades[ActiveIndex(l.trades).value]
  {
    match ActiveIndex(l.trades)
    case None => None
    case Some(i) => Some(l.trades[i])
  }

  /** `updateCurrentPrice`: the price goes to the active trade only. */
  function UpdateCurrentPrice(l: Ledger, price: real): (r: Ledger)
    ensures r.initialBalance == l.initialBalance && |r.trades| == |l.trades|
    ensures ActiveIndex(l.trades).None? ==> r == l
    ensures ActiveIndex(l.trades).Some? ==>
      var i := ActiveIndex(l.trades).value;
      && r.trades[i] == SizedPositions.UpdateCurrentPrice(l.trades[i], price)
      && forall j :: 0 <= j < |l.trades| && j != i ==> r.trades[j] == l.trades[j]
  {
    match ActiveIndex(l.trades)
    case None => l
    case Some(i) => l.(trades := l.trades[i := SizedPositions.UpdateCurrentPrice(l.trades[i], price)])
  }

  /** `exitActiveTrade`: closes the active trade at its current price; a
      ledger without an open trade is left as it is. */
  function ExitActiveTrade(l: Ledger): (r: Ledger)
    ensures r.initialBalance == l.initialBalance && |r.trades| == |l.trades|
    ensures ActiveIndex(l.trades).None? ==> r == l
    ensures ActiveIndex(l.trades).Some? ==>
      var i := ActiveIndex(l.trades).value;
      && r.trades[i] == Exit(l.trades[i]).value
      && forall j :: 0 <= j < |l.trades| && j != i ==> r.trades[j] == l.trades[j]
  {
    match ActiveIndex(l.trades)
    case None => l
    case Some(i) => l.(trades := l.trades[i := Exit(l.trades[i]).value])
  }

  /** Number of open trades. */
  function OpenCount(ts: seq<Trade>): nat
  {
    if |ts| == 0 then 0 else (if IsOpen(ts[0]) then 1 else 0) + OpenCount(ts[1..])
  }

  lemma {:induction false} OpenCountUpdate(ts: seq<Trade>, i: nat, t: Trade)
    requires i < |ts|
    ensures OpenCount(ts[i := t]) + (if IsOpen(ts[i]) then 1 else 0)
         == OpenCount(ts) + (if IsOpen(t) then 1 else 0)
  {
    if i == 0 {
      assert ts[i := t][1..] == ts[1..];
    } else {
      assert ts[i := t][1..] == ts[1..][i - 1 := t];
      OpenCountUpdate(ts[1..], i - 1, t);
    }
  }

  /** Exiting closes exactly one trade, the first open one, and the next
      active trade (if any) comes after it. */
  lemma ExitClosesOneTrade(l: Ledger)
    requires ActiveIndex(l.trades).Some?
    ensures OpenCount(ExitActiveTrade(l).trades) + 1 == OpenCount(l.trades)
    ensures ActiveIndex(ExitActiveTrade(l).trades).Some? ==>
      ActiveIndex(ExitActiveTrade(l).trades).value > ActiveIndex(l.trades).value
  {
    var i := ActiveIndex(l.trades).value;
    OpenCountUpdate(l.trades, i, Exit(l.trades[i]).value);
  }

  /** Every open trade is still without an exit price, as `Open` leaves it. */
  predicate Consistent(l: Ledger)
  {
    forall i :: 0 <= i < |l.trades| && IsOpen(l.trades[i]) ==> l.trades[i].exitPrice.None?
  }

  /** Every ledger operation keeps open trades free of an exit price. */
  lemma OperationsKeepConsistency(l: Ledger, t: Trade, price: real)
    requires Consistent(l)
    ensures IsOpen(t) && t.exitPrice.None? && PlusAssign(l, t).Ok? ==> Consistent(PlusAssign(l, t).value)
    ensures Consistent(UpdateCurrentPrice(l, price))
    ensures Consistent(ExitActiveTrade(l))
  {
  }

  /** Exiting the active trade does not move the balance: the open trade was
      already valued at the price it is closed at. */
  lemma ExitKeepsBalance(l: Ledger)
    requires Consistent(l)
    ensures Balance(ExitActiveTrade(l)) == Balance(l)
  {
    match ActiveIndex(l.trades)
    case None =>
    case Some(i) =>
      var t := Exit(l.trades[i]).value;
      ExitKeepsProfitLoss(l.trades[i]);
      assert ProfitLosses(l.trades[i := t]) == ProfitLosses(l.trades)[i := ProfitLoss(t)];
      SumUpdate(ProfitLosses(l.trades), i, ProfitLoss(t));
  }

  /** A price update moves the balance by exactly the change in the active
      trade's profit. */
  lemma UpdateMovesBalanceByActiveTrade(l: Ledger, price: real)
    requires ActiveIndex(l.trades).Some?
    ensures var i := ActiveIndex(l.trades).value;
            Balance(UpdateCurrentPrice(l, price))
              == Balance(l) - ProfitLoss(l.trades[i])
                 + ProfitLoss(SizedPositions.UpdateCurrentPrice(l.trades[i], price))
  {
    var i := ActiveIndex(l.trades).value;
    var t := SizedPositions.UpdateCurrentPrice(l.trades[i], price);
    assert ProfitLosses(l.trades[i := t]) == ProfitLosses(l.trades)[i := ProfitLoss(t)];
    SumUpdate(ProfitLosses(l.trades), i, ProfitLoss(t));
  }
}
