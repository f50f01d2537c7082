/**
 The risk gateway: pre-trade checks with a sliding-window rate limit, and weighted-average position
 accounting. Prices in dollars are reals; clock readings are passed in.
 */
module Risk {
  import opened Types

  datatype RiskLimits = RiskLimits(
    maxOrderQty: Quantity, maxPosition: Quantity, maxNotional: real, maxOrdersPerSec: int, enabled: bool)

  datatype Position = Position(netQty: Quantity, avgPrice: real, realizedPnl: real, unrealizedPnl: real)
  {
    function Pnl(): real {
      realizedPnl + unrealizedPnl
    }
  }

  datatype Verdict =
    | Approved
    | InvalidQty
    | InvalidPrice
    | MaxOrderQty
    | MaxNotional
    | MaxPosition
    | MaxOrderRate

  datatype RiskState = RiskState(
    limits: RiskLimits, positions: map<string, Position>, marketPrices: map<string, real>,
    stamps: seq<int>, checked: nat, rejected: nat)

  const PRICE_SCALE := 10000
  const WINDOW_NS := 1_000_000_000

  function Fresh(limits: RiskLimits): RiskState {
    RiskState(limits, map[], map[], [], 0, 0)
  }

  function FromPrice(p: Price): real {
    p as real / PRICE_SCALE as real
  }

  function PositionOf(positions: map<string, Position>, symbol: string): Position {
    if symbol in positions then positions[symbol] else Position(0, 0.0, 0.0, 0.0)
  }

  // ---------------------------------------------------------------- pre-trade checks

  /** The stamps left after popping old ones off the front. */
  function PopOld(stamps: seq<int>, cutoff: int): seq<int> {
    if stamps != [] && stamps[0] < cutoff then PopOld(stamps[1..], cutoff) else stamps
  }

  function Notional(o: OrderRec, currentPrice: real): real {
    (if currentPrice > 0.0 then currentPrice else FromPrice(o.price)) * o.qty as real
  }

  function Projected(st: RiskState, symbol: string, o: OrderRec): Quantity {
    PositionOf(st.positions, symbol).netQty + Signed(o.side, o.qty)
  }

  /** The checks made before the clock is read. */
  function EarlyVerdict(st: RiskState, symbol: string, o: OrderRec, currentPrice: real): Verdict {
    if o.qty <= 0 then InvalidQty
    else if o.typ.Limit? && o.price <= 0 then InvalidPrice
    else if o.qty > st.limits.maxOrderQty then MaxOrderQty
    else if Notional(o, currentPrice) > st.limits.maxNotional then MaxNotional
    else if Abs(Projected(st, symbol, o)) > st.limits.maxPosition then MaxPosition
    else Approved
  }

  /** check_order reads the clock twice: for the window and for the stamp it records. */
  function Check(st: RiskState, symbol: string, o: OrderRec, currentPrice: real, windowNow: int,
                 stampNow: int): (RiskState, Verdict) {
    var st1 := st.(checked := st.checked + 1);
    if !st.limits.enabled then (st1.(stamps := st.stamps + [stampNow]), Approved)
    else
      var early := EarlyVerdict(st, symbol, o, currentPrice);
      if early != Approved then (st1.(rejected := st.rejected + 1), early)
      else
        var recent := PopOld(st.stamps, windowNow - WINDOW_NS);
        if |recent| >= st.limits.maxOrdersPerSec
          then (st1.(rejected := st.rejected + 1, stamps := recent), MaxOrderRate)
        else (st1.(stamps := recent + [stampNow]), Approved)
  }

  // ---------------------------------------------------------------- positions

  /** What a quantity is worth at a price. */
  function Worth(qty: Quantity, price: real): real {
    qty as real * price
  }

  function WithFill(pos: Position, side: Side, qty: Quantity, price: real): Position {
    var net := pos.netQty + Signed(side, qty);
    if pos.netQty == 0 || (side.Buy? && pos.netQty > 0) || (side.Sell? && pos.netQty < 0) then
      var totalCost := Worth(Abs(pos.netQty), pos.avgPrice) + Worth(qty, price);
      pos.(netQty := net, avgPrice := if net != 0 then totalCost / Abs(net) as real else 0.0)
    else
      var closing := Min(qty, Abs(pos.netQty));
      var direction := if pos.netQty > 0 then 1.0 else -1.0;
      pos.(netQty := net,
           realizedPnl := pos.realizedPnl + Worth(closing, price - pos.avgPrice) * direction,
           avgPrice := if net == 0 then 0.0 else if qty - closing > 0 then price else pos.avgPrice)
  }

  lemma FillMovesNet(pos: Position, side: Side, qty: Quantity, price: real)
    ensures WithFill(pos, side, qty, price).netQty == pos.netQty + Signed(side, qty)
  {
  }

  /** Unrealized profit at a mark. */
  function Marked(pos: Position, mark: real): Position {
    pos.(unrealizedPnl := if pos.netQty != 0 then (mark - pos.avgPrice) * pos.netQty as real else 0.0)
  }

  function OnFill(st: RiskState, symbol: string, side: Side, qty: Quantity, price: real): RiskState {
    var mark := if symbol in st.marketPrices then st.marketPrices[symbol] else price;
    st.(positions := st.positions[symbol := Marked(WithFill(PositionOf(st.positions, symbol), side, qty, price), mark)])
  }

  function OnPrice(st: RiskState, symbol: string, price: real): RiskState {
    st.(marketPrices := st.marketPrices[symbol := price],
        positions := if symbol in st.positions
                     then st.positions[symbol := Marked(st.positions[symbol], price)] else st.positions)
  }

  /** Profit over a set of symbols, in any order of summation. */
  ghost function PnlOver(positions: map<string, Position>, keys: set<string>): real
    requires keys <= positions.Keys
  {
    if keys == {} then 0.0
    else
      var k :| k in keys;
      positions[k].Pnl() + PnlOver(positions, keys - {k})
  }

  lemma {:induction false} PnlOverAnyOrder(positions: map<string, Position>, keys: set<string>, k: string)
    requires keys <= positions.Keys && k in keys
    ensures PnlOver(positions, keys) == positions[k].Pnl() + PnlOver(positions, keys - {k})
  {
    var first :| first in keys
      && PnlOver(positions, keys) == positions[first].Pnl() + PnlOver(positions, keys - {first});
    if first != k {
      PnlOverAnyOrder(positions, keys - {first}, k);
      PnlOverAnyOrder(positions, keys - {k}, first);
      assert keys - {first} - {k} == keys - {k} - {first};
    }
  }

  // ---------------------------------------------------------------- the manager

  class RiskManager {
    var limits: RiskLimits
    var positions: map<string, Position>
    var marketPrices: map<string, real>
    var timestamps: seq<int>
    var statsChecked: nat
    var statsRejected: nat

    constructor (limits: RiskLimits)
      ensures View() == Fresh(limits)
    {
      this.limits := limits;
      positions, marketPrices, timestamps := map[], map[], [];
      statsChecked, statsRejected := 0, 0;
    }

    ghost function View(): RiskState
      reads this
    {
      RiskState(limits, positions, marketPrices, timestamps, statsChecked, statsRejected)
    }

    method OrdersInLastSecond(now: int) returns (count: nat)
      modifies this`timestamps
      ensures timestamps == PopOld(old(timestamps), now - WINDOW_NS) && count == |timestamps|
    {
      var cutoff := now - WINDOW_NS;
      while timestamps != [] && timestamps[0] < cutoff
        invariant PopOld(timestamps, cutoff) == PopOld(old(timestamps), cutoff)
        decreases |timestamps|
      {
        timestamps := timestamps[1..];
      }
      count := |timestamps|;
    }

    method CheckOrder(symbol: string, o: OrderRec, currentPrice: real, windowNow: int, stampNow: int)
      returns (verdict: Verdict)
      modifies this
      ensures (View(), verdict) == Check(old(View()), symbol, o, currentPrice, windowNow, stampNow)
    {
      statsChecked := statsChecked + 1;
      if !limits.enabled {
        timestamps := timestamps + [stampNow];
        return Approved;
      }
      if o.qty <= 0 {
        statsRejected := statsRejected + 1;
        return InvalidQty;
      }
      if o.typ.Limit? && o.price <= 0 {
        statsRejected := statsRejected + 1;
        return InvalidPrice;
      }
      if o.qty > limits.maxOrderQty {
        statsRejected := statsRejected + 1;
        return MaxOrderQty;
      }
      var priceUsd := if currentPrice > 0.0 then currentPrice else FromPrice(o.price);
      if priceUsd * o.qty as real > limits.maxNotional {
        statsRejected := statsRejected + 1;
        return MaxNotional;
      }
      var current := if symbol in positions then positions[symbol].netQty else 0;
      var projected := current + (if o.side.Buy? then o.qty else -o.qty);
      if Abs(projected) > limits.maxPosition {
        statsRejected := statsRejected + 1;
        return MaxPosition;
      }
      var rate := OrdersInLastSecond(windowNow);
      if rate >= limits.maxOrdersPerSec {
        statsRejected := statsRejected + 1;
        return MaxOrderRate;
      }
      timestamps := timestamps + [stampNow];
      return Approved;
    }

    /** The accounting half of on_fill: cost basis on the way in, realized profit on the way out. */
    static method Book(before: Position, side: Side, qty: Quantity, price: real) returns (pos: Position)
      ensures pos == WithFill(before, side, qty, price)
    {
      hide Worth;
      pos := before;
      var signedQty := if side.Buy? then qty else -qty;
      var adding := pos.netQty == 0 || (side.Buy? && pos.netQty > 0) || (side.Sell? && pos.netQty < 0);
      if adding {
        var totalCost := Worth(Abs(pos.netQty), pos.avgPrice) + Worth(qty, price);
        pos := pos.(netQty := pos.netQty + signedQty);
        pos := pos.(avgPrice := if pos.netQty != 0 then totalCost / Abs(pos.netQty) as real else 0.0);
      } else {
        var closing := Min(qty, Abs(pos.netQty));
        var opening := qty - closing;
        var realized := Worth(closing, price - pos.avgPrice) * (if pos.netQty > 0 then 1.0 else -1.0);
        pos := pos.(realizedPnl := pos.realizedPnl + realized);
        pos := pos.(netQty := pos.netQty + signedQty);
        if pos.netQty == 0 {
          pos := pos.(avgPrice := 0.0);
        } else if opening > 0 {
          pos := pos.(avgPrice := price);
        }
      }
    }

    method OnFillEvent(symbol: string, side: Side, qty: Quantity, price: real)
      modifies this`positions
      ensures View() == OnFill(old(View()), symbol, side, qty, price)
    {
      hide WithFill;
      var pos := Book(PositionOf(positions, symbol), side, qty, price);
      if pos.netQty != 0 {
        var mkt := if symbol in marketPrices then marketPrices[symbol] else price;
        pos := pos.(unrealizedPnl := (mkt - pos.avgPrice) * pos.netQty as real);
      } else {
        pos := pos.(unrealizedPnl := 0.0);
      }
      ghost var mark := if symbol in marketPrices then marketPrices[symbol] else price;
      assert pos == Marked(WithFill(PositionOf(positions, symbol), side, qty, price), mark);
      positions := positions[symbol := pos];
    }

    method UpdateMarketPrice(symbol: string, price: real)
      modifies this`positions, this`marketPrices
      ensures View() == OnPrice(old(View()), symbol, price)
    {
      marketPrices := marketPrices[symbol := price];
      if symbol in positions {
        var pos := positions[symbol];
        pos := pos.(unrealizedPnl := if pos.netQty != 0 then (price - pos.avgPrice) * pos.netQty as real else 0.0);
        positions := positions[symbol := pos];
      }
    }

    method TotalPnl() returns (total: real)
      ensures total == PnlOver(positions, positions.Keys)
    {
      total := 0.0;
      var left := positions.Keys;
      while left != {}
        invariant left <= positions.Keys
        invariant total + PnlOver(positions, left) == PnlOver(positions, positions.Keys)
        decreases left
      {
        var k :| k in left;
        PnlOverAnyOrder(positions, left, k);
        total := total + positions[k].realizedPnl + positions[k].unrealizedPnl;
        left := left - {k};
      }
    }
  }
}
