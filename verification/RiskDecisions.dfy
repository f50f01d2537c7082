/**
 What the risk manager decides and shows after any history, in terms of the history alone: which orders it
 approves, why it refuses the others, what it counts, which positions it keeps, and its total profit.
 */
module RiskDecisions {
  import opened Types
  import opened Risk
  import opened RiskTheorems
  import opened RateLimit

  /** Whatever was checked, filled or updated, the tracked position is the net of the fills. */
  lemma {:induction false} PositionIsNet(st: RiskState, ops: seq<RiskOp>, symbol: string)
    ensures PositionOf(RiskRun(st, ops).positions, symbol).netQty
         == PositionOf(st.positions, symbol).netQty + Net(ops, symbol)
    decreases |ops|
  {
    hide RiskStep, PositionOf, NetOf;
    if ops != [] {
      StepMovesNet(st, ops[0], symbol);
      PositionIsNet(RiskStep(st, ops[0]), ops[1..], symbol);
    }
  }

  lemma StepMovesNet(st: RiskState, op: RiskOp, symbol: string)
    ensures PositionOf(RiskStep(st, op).positions, symbol).netQty
         == PositionOf(st.positions, symbol).netQty + NetOf(op, symbol)
  {
    hide WithFill, EarlyVerdict;
    if op.FillOp? {
      FillMovesNet(PositionOf(st.positions, op.symbol), op.side, op.qty, op.price);
    }
  }

  // ---------------------------------------------------------------- approvals

  /** After every clocked history from a new manager, the verdict on the next order: the first of the six
      conditions that fails gives the reason. */
  lemma VerdictIs(limits: RiskLimits, ops: seq<RiskOp>, start: int, next: RiskOp)
    requires limits.enabled && Clocked(ops, start)
    requires next.CheckOp? && LastClock(ops, start) <= next.windowNow <= next.stampNow
    ensures var o, s := next.order, next.symbol;
            var dollars := if next.currentPrice > 0.0 then next.currentPrice else o.price as real / 10000.0;
            var projected := Net(ops, s) + if o.side.Buy? then o.qty else -o.qty;
            var recent := CountIn(Approvals(Fresh(limits), ops), next.windowNow - 1_000_000_000, next.windowNow);
            Check(RiskRun(Fresh(limits), ops), s, o, next.currentPrice, next.windowNow, next.stampNow).1 ==
              if o.qty <= 0 then InvalidQty
              else if o.typ == Limit && o.price <= 0 then InvalidPrice
              else if o.qty > limits.maxOrderQty then MaxOrderQty
              else if o.qty as real * dollars > limits.maxNotional then MaxNotional
              else if projected > limits.maxPosition || projected < -limits.maxPosition then MaxPosition
              else if recent >= limits.maxOrdersPerSec then MaxOrderRate
              else Approved
  {
    hide RiskRun, Approvals, CountIn, Net, PopOld;
    PositionIsNet(Fresh(limits), ops, next.symbol);
    FreshTracks(limits, ops, start);
    RateVerdictIsExact(limits, ops, start, next);
  }

  /** So an order is approved if and only if it meets all six conditions. */
  lemma ApprovedIff(limits: RiskLimits, ops: seq<RiskOp>, start: int, next: RiskOp)
    requires limits.enabled && Clocked(ops, start)
    requires next.CheckOp? && LastClock(ops, start) <= next.windowNow <= next.stampNow
    ensures var o, s := next.order, next.symbol;
            var dollars := if next.currentPrice > 0.0 then next.currentPrice else o.price as real / 10000.0;
            var projected := Net(ops, s) + if o.side.Buy? then o.qty else -o.qty;
            var st := RiskRun(Fresh(limits), ops);
            Check(st, s, o, next.currentPrice, next.windowNow, next.stampNow).1 == Approved <==>
              && 0 < o.qty <= limits.maxOrderQty && (o.typ == Limit ==> o.price > 0)
              && o.qty as real * dollars <= limits.maxNotional
              && -limits.maxPosition <= projected <= limits.maxPosition
              && CountIn(Approvals(Fresh(limits), ops), next.windowNow - 1_000_000_000, next.windowNow)
                 < limits.maxOrdersPerSec
  {
    hide RiskRun, Approvals, CountIn, Net, Check;
    VerdictIs(limits, ops, start, next);
  }

  /** Disabled limits approve everything, and the approval is stamped all the same. */
  lemma DisabledApproves(st: RiskState, symbol: string, o: OrderRec, currentPrice: real, windowNow: int, stampNow: int)
    requires !st.limits.enabled
    ensures var (st', verdict) := Check(st, symbol, o, currentPrice, windowNow, stampNow);
            verdict == Approved && st'.stamps == st.stamps + [stampNow]
  {
  }

  // ---------------------------------------------------------------- counters

  ghost function Checks(ops: seq<RiskOp>): nat {
    if ops == [] then 0 else (if ops[0].CheckOp? then 1 else 0) + Checks(ops[1..])
  }

  lemma StepCounts(st: RiskState, op: RiskOp)
    ensures RiskStep(st, op).checked == st.checked + if op.CheckOp? then 1 else 0
    ensures RiskStep(st, op).rejected + |NewApproval(st, op)| == st.rejected + if op.CheckOp? then 1 else 0
  {
  }

  /** Every check is counted once, and as rejected unless it was approved. */
  lemma {:induction false} ChecksAreCounted(st: RiskState, ops: seq<RiskOp>)
    ensures RiskRun(st, ops).checked == st.checked + Checks(ops)
    ensures RiskRun(st, ops).rejected + |Approvals(st, ops)| == st.rejected + Checks(ops)
    decreases |ops|
  {
    hide RiskStep, NewApproval;
    if ops != [] {
      StepCounts(st, ops[0]);
      ChecksAreCounted(RiskStep(st, ops[0]), ops[1..]);
    }
  }

  // ---------------------------------------------------------------- positions

  /** The symbols that ever had a fill. */
  ghost function Traded(ops: seq<RiskOp>): set<string> {
    if ops == [] then {} else (if ops[0].FillOp? then {ops[0].symbol} else {}) + Traded(ops[1..])
  }

  lemma StepOpens(st: RiskState, op: RiskOp)
    ensures RiskStep(st, op).positions.Keys == st.positions.Keys + if op.FillOp? then {op.symbol} else {}
  {
  }

  /** A position is kept for every symbol that had a fill, and for no other. */
  lemma {:induction false} PositionsAreTraded(st: RiskState, ops: seq<RiskOp>)
    ensures RiskRun(st, ops).positions.Keys == st.positions.Keys + Traded(ops)
    decreases |ops|
  {
    hide RiskStep;
    if ops != [] {
      StepOpens(st, ops[0]);
      PositionsAreTraded(RiskStep(st, ops[0]), ops[1..]);
    }
  }

  ghost predicate FlatIsBlank(st: RiskState, symbol: string) {
    var pos := PositionOf(st.positions, symbol); pos.netQty == 0 ==> pos.avgPrice == 0.0 && pos.unrealizedPnl == 0.0
  }

  lemma StepKeepsFlatBlank(st: RiskState, op: RiskOp, symbol: string)
    requires FlatIsBlank(st, symbol) && (op.FillOp? ==> op.qty >= 0)
    ensures FlatIsBlank(RiskStep(st, op), symbol)
  {
    hide EarlyVerdict;
  }

  /** A flat position shows no average price and no unrealized profit. */
  lemma {:induction false} FlatStaysBlank(st: RiskState, ops: seq<RiskOp>, symbol: string)
    requires FlatIsBlank(st, symbol) && forall i :: 0 <= i < |ops| && ops[i].FillOp? ==> ops[i].qty >= 0
    ensures FlatIsBlank(RiskRun(st, ops), symbol)
    decreases |ops|
  {
    hide RiskStep, FlatIsBlank;
    if ops != [] {
      StepKeepsFlatBlank(st, ops[0], symbol);
      FlatStaysBlank(RiskStep(st, ops[0]), ops[1..], symbol);
    }
  }

  // ---------------------------------------------------------------- the documented rules for one fill

  /** Opening: the average is the fill's price. */
  lemma OpeningRule(pos: Position, side: Side, qty: Quantity, price: real)
    requires qty > 0 && pos.netQty == 0 && pos.avgPrice == 0.0
    ensures var pos' := WithFill(pos, side, qty, price);
            pos'.realizedPnl == pos.realizedPnl && pos'.avgPrice == price
  {
    hide Worth;
    WorthIs(0, 0.0);
    WorthIs(qty, price);
    Quotient(qty, price);
  }

  lemma Quotient(qty: Quantity, price: real)
    requires qty > 0
    ensures (qty as real * price) / qty as real == price
  {
  }

  /** Adding: the new average, over the whole position, is the weighted average of old and new. */
  lemma AddingRule(pos: Position, side: Side, qty: Quantity, price: real)
    requires qty > 0 && pos.netQty != 0 && (side.Buy? <==> pos.netQty > 0)
    ensures var pos' := WithFill(pos, side, qty, price);
            var held := if pos.netQty > 0 then pos.netQty else -pos.netQty;
            && pos'.realizedPnl == pos.realizedPnl
            && pos'.avgPrice * (held + qty) as real == held as real * pos.avgPrice + qty as real * price
  {
    hide Worth;
    var held := if pos.netQty > 0 then pos.netQty else -pos.netQty;
    WorthIs(held, pos.avgPrice);
    WorthIs(qty, price);
    Divided(Worth(held, pos.avgPrice) + Worth(qty, price), held + qty);
  }

  lemma Divided(x: real, n: Quantity)
    requires n > 0
    ensures x / n as real * n as real == x
  {
  }

  /** Reducing: profit is realized against the average, which stays; closing clears it; flipping realizes
      the whole position and opens the rest at the fill's price. */
  lemma ReducingRule(pos: Position, side: Side, qty: Quantity, price: real)
    requires qty > 0 && pos.netQty != 0 && (side.Buy? <==> pos.netQty < 0)
    ensures var pos' := WithFill(pos, side, qty, price);
            var held := if pos.netQty > 0 then pos.netQty else -pos.netQty;
            var closed := if qty < held then qty else held;
            var gain := closed as real * (price - pos.avgPrice);
            && pos'.realizedPnl == pos.realizedPnl + (if pos.netQty > 0 then gain else -gain)
            && pos'.avgPrice == if qty < held then pos.avgPrice else if qty == held then 0.0 else price
  {
    hide Worth;
    var held := if pos.netQty > 0 then pos.netQty else -pos.netQty;
    WorthIs(if qty < held then qty else held, price - pos.avgPrice);
  }

  // ---------------------------------------------------------------- total profit

  /** Cash and inventory at the last price, summed over a list of symbols. */
  ghost function TotalOf(ops: seq<RiskOp>, symbols: seq<string>): real {
    if symbols == [] then 0.0
    else Cash(ops, symbols[0]) + Net(ops, symbols[0]) as real * LastPrice(ops, symbols[0]) + TotalOf(ops, symbols[1..])
  }

  lemma {:induction false} PnlOfList(limits: RiskLimits, ops: seq<RiskOp>, symbols: seq<string>, keys: set<string>)
    requires forall i :: 0 <= i < |ops| && ops[i].FillOp? ==> ops[i].qty >= 0
    requires forall i, j :: 0 <= i < j < |symbols| ==> symbols[i] != symbols[j]
    requires (set s | s in symbols) == keys <= RiskRun(Fresh(limits), ops).positions.Keys
    ensures PnlOver(RiskRun(Fresh(limits), ops).positions, keys) == TotalOf(ops, symbols)
    decreases |symbols|
  {
    hide RiskRun, Cash, Net, LastPrice;
    var positions := RiskRun(Fresh(limits), ops).positions;
    if symbols == [] {
      assert keys == {};
    } else {
      var s, rest := symbols[0], symbols[1..];
      assert s in symbols;
      assert (set x | x in rest) == keys - {s};
      PnlOfList(limits, ops, rest, keys - {s});
      PnlOverAnyOrder(positions, keys, s);
      ProfitIsCashPlusMark(limits, ops, s);
    }
  }

  /** Over every history the total profit is cash plus inventory at the last prices, summed over the
      symbols that had fills. */
  lemma TotalIsCashPlusMarks(limits: RiskLimits, ops: seq<RiskOp>, symbols: seq<string>)
    requires forall i :: 0 <= i < |ops| && ops[i].FillOp? ==> ops[i].qty >= 0
    requires forall i, j :: 0 <= i < j < |symbols| ==> symbols[i] != symbols[j]
    requires (set s | s in symbols) == Traded(ops)
    ensures var positions := RiskRun(Fresh(limits), ops).positions;
            PnlOver(positions, positions.Keys) == TotalOf(ops, symbols)
  {
    hide RiskRun, TotalOf, PnlOver;
    PositionsAreTraded(Fresh(limits), ops);
    assert RiskRun(Fresh(limits), ops).positions.Keys == Traded(ops);
    PnlOfList(limits, ops, symbols, Traded(ops));
  }
}
