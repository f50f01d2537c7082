/**
 A first-in first-out ledger as a reference for the position accounting. The risk manager keeps a
 weighted average instead; over every history the two agree on position and total profit, and they
 realize the same profit as long as each fill that closes part of a position happens to close units
 that cost the average.
 */
module FifoBasis {
  import opened Types
  import opened Risk
  import opened RiskTheorems

  datatype Lot = Lot(qty: Quantity, price: real)

  /** Open lots, oldest first, all on one side. */
  datatype Ledger = Ledger(side: Side, lots: seq<Lot>, realized: real)

  ghost function LotsQty(lots: seq<Lot>): Quantity {
    if lots == [] then 0 else lots[0].qty + LotsQty(lots[1..])
  }

  ghost function LotsCost(lots: seq<Lot>): real {
    if lots == [] then 0.0 else Worth(lots[0].qty, lots[0].price) + LotsCost(lots[1..])
  }

  ghost predicate Positive(lots: seq<Lot>) {
    forall i :: 0 <= i < |lots| ==> lots[i].qty > 0
  }

  function Toward(side: Side, x: real): real {
    if side.Buy? then x else -x
  }

  ghost function LedgerNet(led: Ledger): Quantity {
    Signed(led.side, LotsQty(led.lots))
  }

  ghost function LedgerCost(led: Ledger): real {
    Toward(led.side, LotsCost(led.lots))
  }

  /** Close lots from the front at a price: what stays open, what that realizes, what was not used. */
  ghost function Close(side: Side, lots: seq<Lot>, qty: Quantity, price: real): (seq<Lot>, real, Quantity)
    decreases |lots|
  {
    if lots == [] then (lots, 0.0, qty)
    else if qty < lots[0].qty then
      ([lots[0].(qty := lots[0].qty - qty)] + lots[1..], Toward(side, Worth(qty, price - lots[0].price)), 0)
    else
      var (rest, gain, unused) := Close(side, lots[1..], qty - lots[0].qty, price);
      (rest, gain + Toward(side, Worth(lots[0].qty, price - lots[0].price)), unused)
  }

  ghost function FifoFill(led: Ledger, side: Side, qty: Quantity, price: real): Ledger {
    if qty <= 0 then led
    else if led.lots == [] || led.side == side then led.(side := side, lots := led.lots + [Lot(qty, price)])
    else
      var (rest, gain, unused) := Close(led.side, led.lots, qty, price);
      if unused > 0 then Ledger(side, [Lot(unused, price)], led.realized + gain)
      else Ledger(led.side, rest, led.realized + gain)
  }

  ghost function LedgerStep(led: Ledger, op: RiskOp, symbol: string): Ledger {
    if IsFill(op, symbol) then FifoFill(led, op.side, op.qty, op.price) else led
  }

  ghost function FifoRun(led: Ledger, ops: seq<RiskOp>, symbol: string): Ledger
    decreases |ops|
  {
    if ops == [] then led
    else FifoRun(LedgerStep(led, ops[0], symbol), ops[1..], symbol)
  }

  lemma WorthSplits(m: Quantity, n: Quantity, price: real, cost: real)
    ensures Worth(m + n, price) == Worth(m, price) + Worth(n, price)
    ensures Worth(m, price - cost) == Worth(m, price) - Worth(m, cost)
    ensures Worth(-m, price) == -Worth(m, price)
  {
  }

  lemma {:induction false} LotsAppend(lots: seq<Lot>, lot: Lot)
    ensures LotsQty(lots + [lot]) == LotsQty(lots) + lot.qty
    ensures LotsCost(lots + [lot]) == LotsCost(lots) + Worth(lot.qty, lot.price)
  {
    hide Worth;
    if lots == [] {
      assert lots + [lot] == [lot];
    } else {
      assert (lots + [lot])[1..] == lots[1..] + [lot];
      LotsAppend(lots[1..], lot);
    }
  }

  /** Closing turns the cost of what it closes, plus the gain, into cash. */
  lemma {:induction false} CloseConserves(side: Side, lots: seq<Lot>, qty: Quantity, price: real)
    requires Positive(lots) && qty >= 0
    ensures var (rest, gain, unused) := Close(side, lots, qty, price);
            && Positive(rest) && 0 <= unused <= qty && (unused > 0 ==> rest == [])
            && LotsQty(rest) == LotsQty(lots) - (qty - unused)
            && gain == Toward(side, Worth(qty - unused, price) - LotsCost(lots) + LotsCost(rest))
    decreases |lots|
  {
    hide Worth;
    WorthSplits(0, 0, price, 0.0);
    if lots != [] {
      var first := lots[0];
      if qty < first.qty {
        WorthSplits(qty, first.qty - qty, first.price, 0.0);
        WorthSplits(qty, 0, price, first.price);
      } else {
        CloseConserves(side, lots[1..], qty - first.qty, price);
        WorthSplits(first.qty, qty - first.qty - Close(side, lots[1..], qty - first.qty, price).2, price, first.price);
        WorthSplits(first.qty, 0, price, first.price);
      }
    }
  }

  lemma LotsOfOne(lot: Lot)
    ensures LotsQty([lot]) == lot.qty && LotsCost([lot]) == Worth(lot.qty, lot.price)
  {
    assert [lot][1..] == [];
  }

  /** Adding to a ledger, or opening one, conserves realized profit less open cost plus cash paid. */
  lemma AddingConserves(led: Ledger, side: Side, qty: Quantity, price: real)
    requires Positive(led.lots) && qty > 0 && (led.lots == [] || led.side == side)
    ensures var led' := led.(side := side, lots := led.lots + [Lot(qty, price)]);
            && Positive(led'.lots) && LedgerNet(led') == LedgerNet(led) + Signed(side, qty)
            && led'.realized - LedgerCost(led') == led.realized - LedgerCost(led) - Worth(Signed(side, qty), price)
  {
    hide Worth;
    LotsAppend(led.lots, Lot(qty, price));
    WorthSplits(qty, 0, price, 0.0);
  }

  lemma FifoConserves(led: Ledger, side: Side, qty: Quantity, price: real)
    requires Positive(led.lots) && qty >= 0
    ensures var led' := FifoFill(led, side, qty, price);
            && Positive(led'.lots) && LedgerNet(led') == LedgerNet(led) + Signed(side, qty)
            && led'.realized - LedgerCost(led') == led.realized - LedgerCost(led) - Worth(Signed(side, qty), price)
  {
    hide Worth, Close, LotsQty, LotsCost;
    WorthSplits(0, 0, price, 0.0);
    if qty > 0 && (led.lots == [] || led.side == side) {
      AddingConserves(led, side, qty, price);
    } else if qty > 0 {
      CloseConserves(led.side, led.lots, qty, price);
      var unused := Close(led.side, led.lots, qty, price).2;
      LotsOfOne(Lot(unused, price));
      NoLotsCostNothing();
      WorthSplits(qty, 0, price, 0.0);
      WorthSplits(qty - unused, unused, price, 0.0);
    }
  }

  lemma NoLotsCostNothing()
    ensures LotsQty([]) == 0 && LotsCost([]) == 0.0
  {
  }

  lemma {:induction false} FifoBalances(led: Ledger, ops: seq<RiskOp>, symbol: string)
    requires Positive(led.lots)
    requires forall i :: 0 <= i < |ops| && ops[i].FillOp? ==> ops[i].qty >= 0
    ensures var led' := FifoRun(led, ops, symbol);
            && LedgerNet(led') == LedgerNet(led) + Net(ops, symbol)
            && led'.realized - LedgerCost(led') == led.realized - LedgerCost(led) + Cash(ops, symbol)
    decreases |ops|
  {
    hide Worth, FifoFill, LedgerNet, LedgerCost, Positive;
    if ops != [] {
      if IsFill(ops[0], symbol) {
        FifoConserves(led, ops[0].side, ops[0].qty, ops[0].price);
        WorthIs(Signed(ops[0].side, ops[0].qty), ops[0].price);
        FifoBalances(FifoFill(led, ops[0].side, ops[0].qty, ops[0].price), ops[1..], symbol);
      } else {
        FifoBalances(led, ops[1..], symbol);
      }
    }
  }

  const NO_LOTS := Ledger(Buy, [], 0.0)

  /** Over every history: same position as a first-in first-out ledger, same total profit at any mark, and
      the same realized profit whenever the position is flat. */
  lemma AverageAgainstFifo(limits: RiskLimits, ops: seq<RiskOp>, symbol: string, mark: real)
    requires forall i :: 0 <= i < |ops| && ops[i].FillOp? ==> ops[i].qty >= 0
    ensures var pos := PositionOf(RiskRun(Fresh(limits), ops).positions, symbol);
            var led := FifoRun(NO_LOTS, ops, symbol);
            && pos.netQty == LedgerNet(led)
            && Marked(pos, mark).Pnl() == led.realized + Worth(LedgerNet(led), mark) - LedgerCost(led)
            && (pos.netQty == 0 ==> pos.realizedPnl == led.realized)
  {
    hide RiskRun, Worth, Cash, Net, FifoRun, Marked, PositionOf, LedgerCost, LedgerNet;
    var pos, led := PositionOf(RiskRun(Fresh(limits), ops).positions, symbol), FifoRun(NO_LOTS, ops, symbol);
    ProfitIsCashPlusMark(limits, ops, symbol);
    MarkedAtWorth(pos, mark);
    NothingOpen();
    FifoBalances(NO_LOTS, ops, symbol);
    FifoRunPositive(NO_LOTS, ops, symbol);
    FlatCostsNothing(pos, led);
  }

  lemma NothingOpen()
    ensures LedgerNet(NO_LOTS) == 0 && LedgerCost(NO_LOTS) == 0.0
  {
  }

  lemma {:induction false} FifoRunPositive(led: Ledger, ops: seq<RiskOp>, symbol: string)
    requires Positive(led.lots)
    requires forall i :: 0 <= i < |ops| && ops[i].FillOp? ==> ops[i].qty >= 0
    ensures Positive(FifoRun(led, ops, symbol).lots)
    decreases |ops|
  {
    hide FifoFill, Positive;
    if ops != [] {
      if IsFill(ops[0], symbol) {
        FifoConserves(led, ops[0].side, ops[0].qty, ops[0].price);
        FifoRunPositive(FifoFill(led, ops[0].side, ops[0].qty, ops[0].price), ops[1..], symbol);
      } else {
        FifoRunPositive(led, ops[1..], symbol);
      }
    }
  }

  lemma FlatCostsNothing(pos: Position, led: Ledger)
    requires pos.netQty == LedgerNet(led) && Positive(led.lots)
    ensures pos.netQty == 0 ==> OpenCost(pos) == 0.0 && LedgerCost(led) == 0.0
  {
    if led.lots != [] {
      LotsArePositive(led.lots);
    }
  }

  lemma {:induction false} LotsArePositive(lots: seq<Lot>)
    requires Positive(lots) && lots != []
    ensures LotsQty(lots) > 0
  {
    if |lots| > 1 {
      LotsArePositive(lots[1..]);
    }
  }

  // ---------------------------------------------------------------- when the two split the profit alike

  /** What the oldest units cost, whatever they will be sold for. */
  ghost function OldestCost(lots: seq<Lot>, qty: Quantity): real {
    if lots == [] || qty <= 0 then 0.0
    else if qty < lots[0].qty then Worth(qty, lots[0].price)
    else Worth(lots[0].qty, lots[0].price) + OldestCost(lots[1..], qty - lots[0].qty)
  }

  /** A fill that closes a part of the position, but not all of it. */
  predicate ClosesPart(pos: Position, side: Side, qty: Quantity) {
    0 < qty < Abs(pos.netQty) && (side.Buy? <==> pos.netQty < 0)
  }

  /** Readable before the fill: if it closes a part, then the oldest units cost the average. */
  ghost predicate SplitsAlike(pos: Position, led: Ledger, side: Side, qty: Quantity) {
    ClosesPart(pos, side, qty) ==> OldestCost(led.lots, qty) == Worth(qty, pos.avgPrice)
  }

  ghost predicate Agree(pos: Position, led: Ledger) {
    && Positive(led.lots)
    && pos.netQty == LedgerNet(led) && pos.realizedPnl == led.realized && OpenCost(pos) == LedgerCost(led)
  }

  lemma {:induction false} CloseLeavesCost(side: Side, lots: seq<Lot>, qty: Quantity, price: real)
    requires Positive(lots) && 0 <= qty <= LotsQty(lots)
    ensures LotsCost(Close(side, lots, qty, price).0) == LotsCost(lots) - OldestCost(lots, qty)
    ensures Close(side, lots, qty, price).2 == 0
    decreases |lots|
  {
    hide Worth;
    WorthSplits(0, 0, price, 0.0);
    if lots != [] {
      var first := lots[0];
      if qty < first.qty {
        WorthSplits(qty, first.qty - qty, first.price, 0.0);
        WorthSplits(qty, 0, first.price, 0.0);
      } else {
        CloseLeavesCost(side, lots[1..], qty - first.qty, price);
        NothingOldest(lots[1..]);
      }
    }
  }

  lemma NothingOldest(lots: seq<Lot>)
    ensures OldestCost(lots, 0) == 0.0
  {
  }

  /** A partial close lowers the cost of the open position by the average on one side and by the cost of
      the oldest units on the other. */
  lemma PartialCloseCosts(pos: Position, led: Ledger, side: Side, qty: Quantity, price: real)
    requires Agree(pos, led) && ClosesPart(pos, side, qty)
    ensures OpenCost(WithFill(pos, side, qty, price)) == OpenCost(pos) + Worth(Signed(side, qty), pos.avgPrice)
    ensures LedgerCost(FifoFill(led, side, qty, price)) == LedgerCost(led) - Toward(led.side, OldestCost(led.lots, qty))
    ensures led.side != side
  {
    hide Close, OldestCost;
    LotsAreNotNegative(led.lots);
    CloseLeavesCost(led.side, led.lots, qty, price);
  }

  lemma LotsAreNotNegative(lots: seq<Lot>)
    requires Positive(lots)
    ensures LotsQty(lots) >= 0 && (LotsQty(lots) == 0 <==> lots == [])
  {
    if lots != [] {
      LotsArePositive(lots);
    }
  }

  /** Opening and adding realize nothing. */
  lemma OtherFillsRealizeNothing(pos: Position, led: Ledger, side: Side, qty: Quantity, price: real)
    requires Agree(pos, led) && qty >= 0 && (pos.netQty == 0 || (side.Buy? <==> pos.netQty > 0) || qty == 0)
    ensures WithFill(pos, side, qty, price).realizedPnl == pos.realizedPnl
    ensures FifoFill(led, side, qty, price).realized == led.realized
  {
    LotsAreNotNegative(led.lots);
  }

  /** Closing all, and perhaps opening the other way: what is open then was opened by this very fill. */
  lemma FullCloseCosts(pos: Position, led: Ledger, side: Side, qty: Quantity, price: real)
    requires Agree(pos, led) && pos.netQty != 0 && (side.Buy? <==> pos.netQty < 0) && qty >= Abs(pos.netQty)
    ensures OpenCost(WithFill(pos, side, qty, price)) == LedgerCost(FifoFill(led, side, qty, price))
  {
    hide Close;
    LotsAreNotNegative(led.lots);
    CloseConserves(led.side, led.lots, qty, price);
    var (rest, gain, unused) := Close(led.side, led.lots, qty, price);
    LotsAreNotNegative(rest);
    LotsOfOne(Lot(unused, price));
  }

  /** One fill, from states that agree: the two go on agreeing if and only if the fill splits alike. */
  lemma FillAgreesIff(pos: Position, led: Ledger, side: Side, qty: Quantity, price: real)
    requires Agree(pos, led) && qty >= 0
    ensures var pos', led' := WithFill(pos, side, qty, price), FifoFill(led, side, qty, price);
            && (pos'.realizedPnl == led'.realized <==> SplitsAlike(pos, led, side, qty))
            && (SplitsAlike(pos, led, side, qty) ==> Agree(pos', led'))
  {
    hide WithFill, FifoFill, OldestCost, Worth, OpenCost, LedgerCost, LedgerNet, Positive;
    FillConservesCash(pos, side, qty, price);
    FifoConserves(led, side, qty, price);
    if ClosesPart(pos, side, qty) {
      PartialCloseCosts(pos, led, side, qty, price);
      WorthSplits(qty, 0, pos.avgPrice, 0.0);
    } else if pos.netQty == 0 || (side.Buy? <==> pos.netQty > 0) || qty == 0 {
      OtherFillsRealizeNothing(pos, led, side, qty, price);
    } else {
      FullCloseCosts(pos, led, side, qty, price);
    }
  }

  /** Both realize the same profit now and after every operation to come. */
  ghost predicate AgreeThroughout(st: RiskState, led: Ledger, ops: seq<RiskOp>, symbol: string)
    decreases |ops|
  {
    && PositionOf(st.positions, symbol).realizedPnl == led.realized
    && (ops != [] ==> AgreeThroughout(RiskStep(st, ops[0]), LedgerStep(led, ops[0], symbol), ops[1..], symbol))
  }

  /** Every fill to come splits alike. */
  ghost predicate AllSplitAlike(st: RiskState, led: Ledger, ops: seq<RiskOp>, symbol: string)
    decreases |ops|
  {
    ops != [] ==>
      && (IsFill(ops[0], symbol) ==> SplitsAlike(PositionOf(st.positions, symbol), led, ops[0].side, ops[0].qty))
      && AllSplitAlike(RiskStep(st, ops[0]), LedgerStep(led, ops[0], symbol), ops[1..], symbol)
  }

  lemma StepAgreesIff(st: RiskState, led: Ledger, op: RiskOp, symbol: string)
    requires Agree(PositionOf(st.positions, symbol), led) && (op.FillOp? ==> op.qty >= 0)
    ensures var pos' := PositionOf(RiskStep(st, op).positions, symbol);
            var led' := LedgerStep(led, op, symbol);
            var alike := IsFill(op, symbol) ==> SplitsAlike(PositionOf(st.positions, symbol), led, op.side, op.qty);
            (pos'.realizedPnl == led'.realized <==> alike) && (alike ==> Agree(pos', led'))
  {
    hide WithFill, FifoFill, SplitsAlike, LedgerCost, LedgerNet, Positive, EarlyVerdict;
    if IsFill(op, symbol) {
      FillAgreesIff(PositionOf(st.positions, symbol), led, op.side, op.qty, op.price);
    }
  }

  lemma {:induction false} HistoryAgreesIff(st: RiskState, led: Ledger, ops: seq<RiskOp>, symbol: string)
    requires Agree(PositionOf(st.positions, symbol), led)
    requires forall i :: 0 <= i < |ops| && ops[i].FillOp? ==> ops[i].qty >= 0
    ensures AgreeThroughout(st, led, ops, symbol) <==> AllSplitAlike(st, led, ops, symbol)
    decreases |ops|
  {
    hide RiskStep, LedgerStep, PositionOf, SplitsAlike, LedgerCost, LedgerNet, OpenCost, Positive;
    if ops != [] {
      StepAgreesIff(st, led, ops[0], symbol);
      var st', led' := RiskStep(st, ops[0]), LedgerStep(led, ops[0], symbol);
      if PositionOf(st'.positions, symbol).realizedPnl == led'.realized {
        HistoryAgreesIff(st', led', ops[1..], symbol);
      }
    }
  }

  /** Over every history from a new manager: the realized profit is first-in first-out throughout if and
      only if every fill that closes a part of the position closes units that cost the average. */
  lemma AverageIsFifoIff(limits: RiskLimits, ops: seq<RiskOp>, symbol: string)
    requires forall i :: 0 <= i < |ops| && ops[i].FillOp? ==> ops[i].qty >= 0
    ensures AgreeThroughout(Fresh(limits), NO_LOTS, ops, symbol) <==> AllSplitAlike(Fresh(limits), NO_LOTS, ops, symbol)
  {
    NothingOpen();
    HistoryAgreesIff(Fresh(limits), NO_LOTS, ops, symbol);
  }

  /** A history on which they differ: two buys at different prices, then half sold. */
  lemma AverageIsNotFifo(limits: RiskLimits, symbol: string)
    ensures var ops := [FillOp(symbol, Buy, 1, 10.0), FillOp(symbol, Buy, 1, 20.0), FillOp(symbol, Sell, 1, 30.0)];
            && PositionOf(RiskRun(Fresh(limits), ops).positions, symbol).realizedPnl == 15.0
            && FifoRun(NO_LOTS, ops, symbol).realized == 20.0
  {
    var b1, b2, s := FillOp(symbol, Buy, 1, 10.0), FillOp(symbol, Buy, 1, 20.0), FillOp(symbol, Sell, 1, 30.0);
    var st1 := RiskStep(Fresh(limits), b1);
    var st2 := RiskStep(st1, b2);
    assert PositionOf(st1.positions, symbol).avgPrice == 10.0;
    assert PositionOf(st2.positions, symbol).avgPrice == 15.0;
    assert [b1, b2, s][1..] == [b2, s] && [b2, s][1..] == [s] && [s][1..] == [];
    assert RiskRun(st2, [s]) == RiskStep(st2, s);
    assert RiskRun(st1, [b2, s]) == RiskRun(st2, [s]);
    var led2 := Ledger(Buy, [Lot(1, 10.0), Lot(1, 20.0)], 0.0);
    assert FifoRun(led2, [s], symbol) == FifoFill(led2, Sell, 1, 30.0);
    assert FifoRun(Ledger(Buy, [Lot(1, 10.0)], 0.0), [b2, s], symbol) == FifoRun(led2, [s], symbol);
    assert [] + [Lot(1, 10.0)] == [Lot(1, 10.0)];
    assert Close(Buy, led2.lots[1..], 0, 30.0).1 == 0.0;
  }
}
