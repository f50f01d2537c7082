/** What the position accounting guarantees over whole histories: profit is cash plus inventory at the mark. */
module RiskTheorems {
  import opened Types
  import opened Risk

  datatype RiskOp =
    | CheckOp(symbol: string, order: OrderRec, currentPrice: real, windowNow: int, stampNow: int)
    | FillOp(symbol: string, side: Side, qty: Quantity, price: real)
    | PriceOp(symbol: string, price: real)

  function RiskStep(st: RiskState, op: RiskOp): RiskState {
    match op
    case CheckOp(symbol, order, currentPrice, windowNow, stampNow) =>
      Check(st, symbol, order, currentPrice, windowNow, stampNow).0
    case FillOp(symbol, side, qty, price) => OnFill(st, symbol, side, qty, price)
    case PriceOp(symbol, price) => OnPrice(st, symbol, price)
  }

  function RiskRun(st: RiskState, ops: seq<RiskOp>): RiskState
    decreases |ops|
  {
    if ops == [] then st else RiskRun(RiskStep(st, ops[0]), ops[1..])
  }

  // ---------------------------------------------------------------- profit is cash plus inventory at the mark

  ghost predicate IsFill(op: RiskOp, symbol: string) {
    op.FillOp? && op.symbol == symbol
  }

  /** What one operation pays (negative) or receives (positive) in a symbol. */
  ghost function CashOf(op: RiskOp, symbol: string): real {
    if IsFill(op, symbol) then -(NetOf(op, symbol) as real * op.price) else 0.0
  }

  ghost function NetOf(op: RiskOp, symbol: string): Quantity {
    if !IsFill(op, symbol) then 0 else if op.side.Buy? then op.qty else -op.qty
  }

  ghost function Cash(ops: seq<RiskOp>, symbol: string): real {
    if ops == [] then 0.0 else CashOf(ops[0], symbol) + Cash(ops[1..], symbol)
  }

  ghost function Net(ops: seq<RiskOp>, symbol: string): Quantity {
    if ops == [] then 0 else NetOf(ops[0], symbol) + Net(ops[1..], symbol)
  }

  ghost function LastFillPrice(ops: seq<RiskOp>, symbol: string, before: real): real {
    if ops == [] then before
    else LastFillPrice(ops[1..], symbol, if IsFill(ops[0], symbol) then ops[0].price else before)
  }

  ghost function Mark(st: RiskState, symbol: string, lastFill: real): real {
    if symbol in st.marketPrices then st.marketPrices[symbol] else lastFill
  }

  ghost function OpenCost(pos: Position): real {
    pos.netQty as real * pos.avgPrice
  }

  /** The books balance: net is the signed volume, realized profit less the cost of the open position
      is the cash, and unrealized profit is what the position is worth at the mark less that cost. */
  ghost predicate Balanced(st: RiskState, symbol: string, cash: real, net: Quantity, lastFill: real) {
    var pos := PositionOf(st.positions, symbol);
    && pos.netQty == net
    && pos.realizedPnl - OpenCost(pos) == cash
    && pos.unrealizedPnl == Worth(net, Mark(st, symbol, lastFill)) - OpenCost(pos)
  }

  /** Weighted averages, reductions and flips all conserve realized profit less open cost plus cash paid. */
  lemma FillConservesCash(pos: Position, side: Side, qty: Quantity, price: real)
    requires qty >= 0
    ensures var pos' := WithFill(pos, side, qty, price);
            && pos'.netQty == pos.netQty + Signed(side, qty)
            && pos'.realizedPnl - OpenCost(pos') == pos.realizedPnl - OpenCost(pos) - Worth(Signed(side, qty), price)
  {
  }

  lemma MarkedAtWorth(pos: Position, mark: real)
    ensures var pos' := Marked(pos, mark);
            && pos'.netQty == pos.netQty && pos'.realizedPnl == pos.realizedPnl && OpenCost(pos') == OpenCost(pos)
            && pos'.unrealizedPnl == Worth(pos.netQty, mark) - OpenCost(pos)
  {
  }

  lemma StepBalances(st: RiskState, op: RiskOp, symbol: string, cash: real, net: Quantity, lastFill: real)
    requires Balanced(st, symbol, cash, net, lastFill)
    requires op.FillOp? ==> op.qty >= 0
    ensures Balanced(RiskStep(st, op), symbol, cash + CashOf(op, symbol), net + NetOf(op, symbol),
                     if IsFill(op, symbol) then op.price else lastFill)
  {
    hide WithFill, Marked, OpenCost, Worth, EarlyVerdict;
    var pos := PositionOf(st.positions, symbol);
    match op
    case CheckOp(_, _, _, _, _) =>
    case FillOp(s, side, qty, price) =>
      if s == symbol {
        FillConservesCash(pos, side, qty, price);
        WorthIs(Signed(side, qty), price);
        MarkedAtWorth(Risk.WithFill(pos, side, qty, price), Mark(st, symbol, price));
      }
    case PriceOp(s, price) =>
      MarkedAtWorth(pos, price);
      NoPositionNoWorth(price);
  }

  lemma WorthIs(qty: Quantity, price: real)
    ensures Worth(qty, price) == qty as real * price
  {
  }

  lemma NoPositionNoWorth(mark: real)
    ensures Worth(0, mark) == 0.0 && OpenCost(Position(0, 0.0, 0.0, 0.0)) == 0.0
  {
  }

  /** For every history of checks, fills and price updates. */
  lemma {:induction false} BooksBalance(st: RiskState, ops: seq<RiskOp>, symbol: string, cash: real, net: Quantity,
                                        lastFill: real)
    requires Balanced(st, symbol, cash, net, lastFill)
    requires forall i :: 0 <= i < |ops| && ops[i].FillOp? ==> ops[i].qty >= 0
    ensures Balanced(RiskRun(st, ops), symbol, cash + Cash(ops, symbol), net + Net(ops, symbol),
              LastFillPrice(ops, symbol, lastFill))
    decreases |ops|
  {
    hide Balanced, RiskStep;
    if ops != [] {
      StepBalances(st, ops[0], symbol, cash, net, lastFill);
      BooksBalance(RiskStep(st, ops[0]), ops[1..], symbol, cash + CashOf(ops[0], symbol), net + NetOf(ops[0], symbol),
                   if IsFill(ops[0], symbol) then ops[0].price else lastFill);
    }
  }

  // ---------------------------------------------------------------- the mark, from the operations alone

  /** The price of a symbol's last market update, if there was one. */
  ghost function LastUpdate(ops: seq<RiskOp>, symbol: string, before: Option<real>): Option<real> {
    if ops == [] then before
    else LastUpdate(ops[1..], symbol, if ops[0].PriceOp? && ops[0].symbol == symbol then Some(ops[0].price) else before)
  }

  /** The price of the last update, or of the last fill where there was no update. */
  ghost function LastPrice(ops: seq<RiskOp>, symbol: string): real {
    match LastUpdate(ops, symbol, None)
    case Some(price) => price
    case None => LastFillPrice(ops, symbol, 0.0)
  }

  ghost function MarketOf(st: RiskState, symbol: string): Option<real> {
    if symbol in st.marketPrices then Some(st.marketPrices[symbol]) else None
  }

  lemma StepUpdates(st: RiskState, op: RiskOp, symbol: string)
    ensures MarketOf(RiskStep(st, op), symbol) ==
              if op.PriceOp? && op.symbol == symbol then Some(op.price) else MarketOf(st, symbol)
  {
  }

  /** Over every history the market price kept is that of the last update. */
  lemma {:induction false} UpdatesAreKept(st: RiskState, ops: seq<RiskOp>, symbol: string)
    ensures MarketOf(RiskRun(st, ops), symbol) == LastUpdate(ops, symbol, MarketOf(st, symbol))
    decreases |ops|
  {
    hide RiskStep, MarketOf;
    if ops != [] {
      StepUpdates(st, ops[0], symbol);
      UpdatesAreKept(RiskStep(st, ops[0]), ops[1..], symbol);
    }
  }

  lemma MarkIsLastPrice(limits: RiskLimits, ops: seq<RiskOp>, symbol: string)
    ensures Mark(RiskRun(Fresh(limits), ops), symbol, LastFillPrice(ops, symbol, 0.0)) == LastPrice(ops, symbol)
  {
    UpdatesAreKept(Fresh(limits), ops, symbol);
  }

  lemma FreshIsBalanced(limits: RiskLimits, symbol: string)
    ensures Balanced(Fresh(limits), symbol, 0.0, 0, 0.0)
  {
  }

  /** From a new manager: the position is the net of the fills; realized profit less the cost of the open
      position is what was received less what was paid; unrealized profit is the open position at the last
      price less its cost; so total profit is cash plus the position at the last price. */
  lemma ProfitIsCashPlusMark(limits: RiskLimits, ops: seq<RiskOp>, symbol: string)
    requires forall i :: 0 <= i < |ops| && ops[i].FillOp? ==> ops[i].qty >= 0
    ensures var pos := PositionOf(RiskRun(Fresh(limits), ops).positions, symbol);
            var inventory := Net(ops, symbol) as real * LastPrice(ops, symbol);
            && pos.netQty == Net(ops, symbol)
            && pos.realizedPnl - pos.netQty as real * pos.avgPrice == Cash(ops, symbol)
            && pos.unrealizedPnl == inventory - pos.netQty as real * pos.avgPrice
            && pos.realizedPnl + pos.unrealizedPnl == Cash(ops, symbol) + inventory
  {
    hide RiskRun, Worth, Cash, Net, LastPrice, Mark;
    FreshIsBalanced(limits, symbol);
    BooksBalance(Fresh(limits), ops, symbol, 0.0, 0, 0.0);
    MarkIsLastPrice(limits, ops, symbol);
    WorthIs(Net(ops, symbol), LastPrice(ops, symbol));
  }

  /** The fills of one symbol, in order. */
  ghost function FillsOf(ops: seq<RiskOp>, symbol: string): seq<RiskOp> {
    if ops == [] then [] else (if IsFill(ops[0], symbol) then [ops[0]] else []) + FillsOf(ops[1..], symbol)
  }

  lemma {:induction false} OnlyFillsCount(ops: seq<RiskOp>, symbol: string)
    ensures Cash(FillsOf(ops, symbol), symbol) == Cash(ops, symbol)
    ensures Net(FillsOf(ops, symbol), symbol) == Net(ops, symbol)
  {
    if ops != [] {
      OnlyFillsCount(ops[1..], symbol);
      if IsFill(ops[0], symbol) {
        assert FillsOf(ops, symbol)[0] == ops[0] && FillsOf(ops, symbol)[1..] == FillsOf(ops[1..], symbol);
      } else {
        assert FillsOf(ops, symbol) == FillsOf(ops[1..], symbol);
      }
    }
  }

  lemma {:induction false} TakeOut(ops: seq<RiskOp>, k: nat, symbol: string)
    requires k < |ops|
    ensures Cash(ops, symbol) == CashOf(ops[k], symbol) + Cash(ops[..k] + ops[k + 1..], symbol)
    ensures Net(ops, symbol) == NetOf(ops[k], symbol) + Net(ops[..k] + ops[k + 1..], symbol)
  {
    if k == 0 {
      assert ops[..0] + ops[1..] == ops[1..];
    } else {
      var rest := ops[..k] + ops[k + 1..];
      assert rest[1..] == ops[1..][..k - 1] + ops[1..][k..];
      TakeOut(ops[1..], k - 1, symbol);
    }
  }

  lemma FindAndRemove(a: seq<RiskOp>, c: seq<RiskOp>) returns (k: nat)
    requires a != [] && multiset(a) == multiset(c)
    ensures k < |c| && c[k] == a[0] && multiset(a[1..]) == multiset(c[..k] + c[k + 1..])
  {
    assert a[0] in multiset(c);
    k :| 0 <= k < |c| && c[k] == a[0];
    assert c == c[..k] + [c[k]] + c[k + 1..];
    assert a == [a[0]] + a[1..];
    assert multiset(a) == multiset{a[0]} + multiset(a[1..]);
    assert multiset(c) == multiset{c[k]} + multiset(c[..k] + c[k + 1..]);
    assert multiset(a[1..]) == multiset(a) - multiset{a[0]};
    assert multiset(c[..k] + c[k + 1..]) == multiset(c) - multiset{c[k]};
  }

  lemma {:induction false} SumsIgnoreOrder(a: seq<RiskOp>, c: seq<RiskOp>, symbol: string)
    requires multiset(a) == multiset(c)
    ensures Cash(a, symbol) == Cash(c, symbol) && Net(a, symbol) == Net(c, symbol)
    decreases |a|
  {
    hide CashOf, NetOf;
    if a == [] {
      assert |multiset(c)| == 0;
    } else {
      var k := FindAndRemove(a, c);
      SumsIgnoreOrder(a[1..], c[..k] + c[k + 1..], symbol);
      TakeOut(c, k, symbol);
    }
  }

  lemma ProfitOfFills(limits: RiskLimits, ops: seq<RiskOp>, symbol: string)
    requires forall i :: 0 <= i < |ops| && ops[i].FillOp? ==> ops[i].qty >= 0
    ensures var pos := PositionOf(RiskRun(Fresh(limits), ops).positions, symbol);
            var fills := FillsOf(ops, symbol);
            && pos.netQty == Net(fills, symbol)
            && pos.Pnl() == Cash(fills, symbol) + Worth(Net(fills, symbol), LastPrice(ops, symbol))
  {
    hide RiskRun, Cash, Net, FillsOf, PositionOf, LastPrice, Worth;
    WorthIs(Net(ops, symbol), LastPrice(ops, symbol));
    ProfitIsCashPlusMark(limits, ops, symbol);
    OnlyFillsCount(ops, symbol);
  }

  /** The order of the fills does not matter: two histories with the same fills of a symbol and the same
      last price show the same position and the same total profit. */
  lemma FillOrderIsIrrelevant(limits: RiskLimits, ops1: seq<RiskOp>, ops2: seq<RiskOp>, symbol: string)
    requires forall i :: 0 <= i < |ops1| && ops1[i].FillOp? ==> ops1[i].qty >= 0
    requires forall i :: 0 <= i < |ops2| && ops2[i].FillOp? ==> ops2[i].qty >= 0
    requires multiset(FillsOf(ops1, symbol)) == multiset(FillsOf(ops2, symbol))
    requires LastPrice(ops1, symbol) == LastPrice(ops2, symbol)
    ensures var p1 := PositionOf(RiskRun(Fresh(limits), ops1).positions, symbol);
            var p2 := PositionOf(RiskRun(Fresh(limits), ops2).positions, symbol);
            p1.netQty == p2.netQty && p1.Pnl() == p2.Pnl()
  {
    hide RiskRun, Cash, Net, FillsOf, PositionOf, LastPrice, Worth;
    ProfitOfFills(limits, ops1, symbol);
    ProfitOfFills(limits, ops2, symbol);
    SumsIgnoreOrder(FillsOf(ops1, symbol), FillsOf(ops2, symbol), symbol);
  }
}
