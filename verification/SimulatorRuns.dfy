/**
 The simulator used by one caller at a time: any sequence of submissions, cancels, modifies and ticks is
 a run of the submit protocol with at most one submitter in flight, so the plain position limit holds, and
 what the positions show is what the books' trades and the last ticks make of them.
 */
module SimulatorRuns {
  import opened Types
  import opened FlatBook
  import opened Simulator
  import opened TakerFlow
  import opened SubmitCash
  import Risk
  import Protocol = SubmitProtocol

  datatype Request =
    | SubmitRequest(symbol: string, order: OrderRec, currentPrice: real, windowNow: int, stampNow: int)
    | CancelRequest(symbol: string, id: OrderId)
    | ModifyRequest(symbol: string, id: OrderId, price: Price, qty: Quantity)
    | TickRequest(symbol: string, lastPrice: Price)

  function Serve(st: Sim, r: Request): Sim {
    match r
    case SubmitRequest(symbol, order, currentPrice, windowNow, stampNow) =>
      Submit(st, symbol, order, currentPrice, windowNow, stampNow).0
    case CancelRequest(symbol, id) =>
      if symbol in st.books then st.(books := st.books[symbol := Cancel(st.books[symbol], id).0]) else st
    case ModifyRequest(symbol, id, price, qty) =>
      if symbol in st.books then st.(books := st.books[symbol := Modify(st.books[symbol], id, price, qty).0]) else st
    case TickRequest(symbol, lastPrice) =>
      st.(risk := Risk.OnPrice(st.risk, symbol, Risk.FromPrice(lastPrice)))
  }

  function ServeAll(st: Sim, rs: seq<Request>): Sim
    decreases |rs|
  {
    if rs == [] then st else ServeAll(Serve(st, rs[0]), rs[1..])
  }

  /** The ids used up after a request. */
  function UsedAfter(used: set<OrderId>, r: Request): set<OrderId> {
    if r.SubmitRequest? then used + {r.order.id} else used
  }

  /** Order ids come from a counter, so no submission reuses one; new orders have filled nothing. */
  predicate FreshIds(used: set<OrderId>, rs: seq<Request>)
    decreases |rs|
  {
    rs != [] ==>
      && (rs[0].SubmitRequest? ==> rs[0].order.id !in used && rs[0].order.filled == 0)
      && FreshIds(UsedAfter(used, rs[0]), rs[1..])
  }

  /** A request as protocol actions. */
  function ActionsFor(sys: Protocol.Sys, r: Request): seq<Protocol.Action> {
    match r
    case SubmitRequest(symbol, order, currentPrice, windowNow, stampNow) =>
      Uninterrupted(sys, Protocol.Submit(symbol, order, currentPrice, windowNow, stampNow))
    case CancelRequest(symbol, id) => [Protocol.CancelOrder(symbol, id)]
    case ModifyRequest(symbol, id, price, qty) => [Protocol.ModifyOrder(symbol, id, price, qty)]
    case TickRequest(symbol, lastPrice) => [Protocol.Tick(symbol, Risk.FromPrice(lastPrice))]
  }

  lemma ServeIsProtocolRun(symbol: string, st: Sim, used: set<OrderId>, r: Request)
    requires r.SubmitRequest? ==> r.order.id !in used && r.order.filled == 0
    ensures var sys := Protocol.Sys(st.books, st.risk, [], used);
            var st' := Serve(st, r);
            Protocol.Leads(symbol, sys, ActionsFor(sys, r),
              Protocol.Sys(st'.books, st'.risk, [], UsedAfter(used, r)), 1)
  {
    hide Protocol.Leads, Submit, Uninterrupted, Cancel, Modify, Protocol.InFlight;
    var sys := Protocol.Sys(st.books, st.risk, [], used);
    Protocol.InFlightAtMost([], symbol);
    match r
    case SubmitRequest(s, order, currentPrice, windowNow, stampNow) =>
      SubmitIsProtocolRun(symbol, sys, Protocol.Submit(s, order, currentPrice, windowNow, stampNow), st);
    case CancelRequest(s, id) => Protocol.OneLeads(symbol, sys, Protocol.CancelOrder(s, id), 1);
    case ModifyRequest(s, id, price, qty) => Protocol.OneLeads(symbol, sys, Protocol.ModifyOrder(s, id, price, qty), 1);
    case TickRequest(s, lastPrice) => Protocol.OneLeads(symbol, sys, Protocol.Tick(s, Risk.FromPrice(lastPrice)), 1);
  }

  /** Serving any sequence of requests is a run of the protocol, one in flight at a time. */
  lemma {:induction false} ServeAllIsProtocolRun(symbol: string, st: Sim, used: set<OrderId>, rs: seq<Request>)
    returns (actions: seq<Protocol.Action>, used': set<OrderId>)
    requires FreshIds(used, rs)
    ensures var st' := ServeAll(st, rs);
            Protocol.Leads(symbol, Protocol.Sys(st.books, st.risk, [], used), actions,
              Protocol.Sys(st'.books, st'.risk, [], used'), 1)
    decreases |rs|
  {
    hide Protocol.Leads, Serve, ActionsFor, Protocol.InFlight;
    var sys := Protocol.Sys(st.books, st.risk, [], used);
    if rs == [] {
      Protocol.InFlightAtMost([], symbol);
      Protocol.LeadsNowhere(symbol, sys, 1);
      return [], used;
    }
    var st1 := Serve(st, rs[0]);
    var sys1 := Protocol.Sys(st1.books, st1.risk, [], UsedAfter(used, rs[0]));
    ServeIsProtocolRun(symbol, st, used, rs[0]);
    var rest;
    rest, used' := ServeAllIsProtocolRun(symbol, st1, UsedAfter(used, rs[0]), rs[1..]);
    var st' := ServeAll(st, rs);
    actions := ActionsFor(sys, rs[0]) + rest;
    Protocol.LeadsOn(symbol, sys, ActionsFor(sys, rs[0]), sys1, rest, Protocol.Sys(st'.books, st'.risk, [], used'), 1);
  }

  /** Whatever one caller at a time asks of a new simulator, no position ever exceeds the limit. */
  lemma PositionStaysWithinLimit(symbols: set<string>, limits: Risk.RiskLimits, rs: seq<Request>, symbol: string)
    requires limits.enabled && limits.maxPosition >= 0 && limits.maxOrderQty >= 0 && FreshIds({}, rs)
    ensures var st := ServeAll(NewSim(symbols, limits), rs);
            Abs(Risk.PositionOf(st.risk.positions, symbol).netQty) <= limits.maxPosition
  {
    hide ServeAll, Protocol.LegalActions, Protocol.AtMostInFlight, Protocol.DoAll;
    var actions, used := ServeAllIsProtocolRun(symbol, NewSim(symbols, limits), {}, rs);
    Protocol.PositionStaysBounded(symbols, limits, actions, symbol, 1);
  }

  // ---------------------------------------------------------------- profit from the tapes

  function TickAfter(r: Request, symbol: string, before: Option<Price>): Option<Price> {
    if r.TickRequest? && r.symbol == symbol then Some(r.lastPrice) else before
  }

  /** The last tick's price of a symbol, if it had a tick. */
  function LastTick(rs: seq<Request>, symbol: string, before: Option<Price>): Option<Price>
    decreases |rs|
  {
    if rs == [] then before else LastTick(rs[1..], symbol, TickAfter(rs[0], symbol, before))
  }

  /** A symbol has the market price of its last tick, in dollars, or none. */
  ghost predicate Priced(st: Sim, symbol: string, last: Option<Price>) {
    match last
    case None => symbol !in st.risk.marketPrices
    case Some(p) => symbol in st.risk.marketPrices && st.risk.marketPrices[symbol] == p as real / 10000.0
  }

  lemma {:induction false} ReportsKeepPrices(risk: Risk.RiskState, o: OrderRec, trades: seq<Trade>)
    ensures ReportAll(risk, o, trades).marketPrices == risk.marketPrices
    decreases |trades|
  {
    if trades != [] {
      var t, px := trades[0], Risk.FromPrice(trades[0].price);
      ReportsKeepPrices(Risk.OnFill(risk, t.symbol, Protocol.FillSide(t, o), t.qty, px), o, trades[1..]);
    }
  }

  lemma ServingPrices(st: Sim, r: Request, symbol: string, last: Option<Price>)
    requires Priced(st, symbol, last)
    ensures Priced(Serve(st, r), symbol, TickAfter(r, symbol, last))
  {
    hide Add, ReportAll, Risk.EarlyVerdict;
    if r.SubmitRequest? && r.symbol in st.books {
      var (risk, verdict) := Risk.Check(st.risk, r.symbol, r.order, r.currentPrice, r.windowNow, r.stampNow);
      ReportsKeepPrices(risk, r.order, Add(st.books[r.symbol], r.order).trades);
    }
  }

  lemma {:induction false} AllServedPrices(st: Sim, rs: seq<Request>, symbol: string, last: Option<Price>)
    requires Priced(st, symbol, last)
    ensures Priced(ServeAll(st, rs), symbol, LastTick(rs, symbol, last))
    decreases |rs|
  {
    hide Priced, Serve;
    if rs != [] {
      ServingPrices(st, rs[0], symbol, last);
      AllServedPrices(Serve(st, rs[0]), rs[1..], symbol, TickAfter(rs[0], symbol, last));
    }
  }

  /** What a position shows agrees with its book's tape and the symbol's last tick. */
  ghost predicate Settles(st: Sim, symbol: string, last: Option<Price>)
    requires symbol in st.books
  {
    var pos, log := Risk.PositionOf(st.risk.positions, symbol), st.books[symbol].log;
    && pos.netQty == Flow(log)
    && pos.realizedPnl - pos.netQty as real * pos.avgPrice == CashFlow(log)
    && (last.Some? ==>
          pos.realizedPnl + pos.unrealizedPnl == CashFlow(log) + Flow(log) as real * (last.value as real / 10000.0))
  }

  /** Whatever one caller at a time asks of a new simulator: every listed symbol's position is the taker
      volume of its book's trades, its booked profit the dollars they moved, and its total profit that plus
      the position at the last tick's price. */
  lemma ProfitIsTape(symbols: set<string>, limits: Risk.RiskLimits, rs: seq<Request>, symbol: string)
    requires limits.enabled && FreshIds({}, rs) && symbol in symbols
    ensures var st := ServeAll(NewSim(symbols, limits), rs);
            symbol in st.books && Settles(st, symbol, LastTick(rs, symbol, None))
  {
    hide ServeAll, Protocol.LegalActions, Protocol.DoAll, Flow, CashFlow, LastTick;
    var start := NewSim(symbols, limits);
    var actions, used := ServeAllIsProtocolRun(symbol, start, {}, rs);
    ServeAllKeepsBooks(start, rs);
    Protocol.PositionEqualsTape(symbols, limits, actions, symbol);
    CashEqualsTape(symbols, limits, actions, symbol);
    AllServedPrices(start, rs, symbol, None);
  }

  lemma ServingKeepsBooks(st: Sim, r: Request)
    ensures Serve(st, r).books.Keys == st.books.Keys
  {
    hide Add, ReportAll, Risk.Check, Cancel, Modify;
  }

  lemma {:induction false} ServeAllKeepsBooks(st: Sim, rs: seq<Request>)
    ensures ServeAll(st, rs).books.Keys == st.books.Keys
    decreases |rs|
  {
    hide Serve;
    if rs != [] {
      ServingKeepsBooks(st, rs[0]);
      ServeAllKeepsBooks(Serve(st, rs[0]), rs[1..]);
    }
  }

  // ---------------------------------------------------------------- the same on the object

  method ServeOne(sim: ExchangeSimulator, r: Request, ghost used: set<OrderId>)
    requires sim.Valid() && sim.risk.limits.enabled && sim.store.Keys <= used
    requires r.SubmitRequest? ==> r.order.id !in used && r.order.filled == 0
    modifies sim, sim.risk, sim.owner.Keys
    ensures sim.Valid() && sim.View() == Serve(old(sim.View()), r)
    ensures old(sim.owner.Keys) <= sim.owner.Keys && fresh(sim.owner.Keys - old(sim.owner.Keys))
    ensures sim.store.Keys <= UsedAfter(used, r)
  {
    hide ExchangeSimulator.Valid, Submit, Cancel, Modify, Risk.Check;
    sim.SameSymbols();
    match r {
      case SubmitRequest(symbol, order, currentPrice, windowNow, stampNow) =>
        var result := sim.SubmitOrder(symbol, order, currentPrice, windowNow, stampNow);
      case CancelRequest(symbol, id) =>
        var ok := sim.CancelOrder(symbol, id);
      case ModifyRequest(symbol, id, price, qty) =>
        var ok := sim.ModifyOrder(symbol, id, price, qty);
      case TickRequest(symbol, lastPrice) =>
        sim.OnTick(symbol, lastPrice);
    }
  }

  lemma ServingKeepsLimits(st: Sim, r: Request)
    ensures Serve(st, r).risk.limits == st.risk.limits
  {
    hide Add;
    if r.SubmitRequest? && r.symbol in st.books {
      var (risk, verdict) := Risk.Check(st.risk, r.symbol, r.order, r.currentPrice, r.windowNow, r.stampNow);
      ReportsKeepLimits(risk, r.order, Add(st.books[r.symbol], r.order).trades);
    }
  }

  lemma ServeAllSplits(st: Sim, rs: seq<Request>, i: nat, used: set<OrderId>)
    requires i <= |rs| && FreshIds(used, rs[i..])
    ensures i == |rs| ==> ServeAll(st, rs[i..]) == st
    ensures i < |rs| ==>
              ServeAll(st, rs[i..]) == ServeAll(Serve(st, rs[i]), rs[i + 1..])
                && FreshIds(UsedAfter(used, rs[i]), rs[i + 1..])
    ensures i < |rs| && rs[i].SubmitRequest? ==> rs[i].order.id !in used && rs[i].order.filled == 0
  {
    hide Serve;
    if i < |rs| {
      assert rs[i..][0] == rs[i] && rs[i..][1..] == rs[i + 1..];
    }
  }

  /** Any requests to a new simulator object: it ends in the state above, so within the position limit. */
  method ServeRequests(sim: ExchangeSimulator, rs: seq<Request>, ghost symbols: set<string>,
                       ghost limits: Risk.RiskLimits)
    requires sim.Valid() && sim.View() == NewSim(symbols, limits) && sim.store == map[]
    requires limits.enabled && FreshIds({}, rs)
    modifies sim, sim.risk, sim.owner.Keys
    ensures sim.Valid() && sim.View() == ServeAll(old(sim.View()), rs)
    ensures limits.maxPosition >= 0 && limits.maxOrderQty >= 0 ==>
              forall s :: s in sim.risk.positions ==> Abs(sim.risk.positions[s].netQty) <= limits.maxPosition
    ensures forall s :: s in symbols ==> s in sim.views && Settles(sim.View(), s, LastTick(rs, s, None))
  {
    hide ExchangeSimulator.Valid, Serve, ServeAll, FreshIds, Settles;
    ghost var used := {};
    assert rs[0..] == rs;
    for i := 0 to |rs|
      invariant sim.Valid() && sim.risk.limits == limits && sim.store.Keys <= used && FreshIds(used, rs[i..])
      invariant old(sim.owner.Keys) <= sim.owner.Keys && fresh(sim.owner.Keys - old(sim.owner.Keys))
      invariant ServeAll(sim.View(), rs[i..]) == ServeAll(old(sim.View()), rs)
    {
      ServeAllSplits(sim.View(), rs, i, used);
      ServingKeepsLimits(sim.View(), rs[i]);
      ServeOne(sim, rs[i], used);
      used := UsedAfter(used, rs[i]);
    }
    ServeAllSplits(sim.View(), rs, |rs|, used);
    if limits.maxPosition >= 0 && limits.maxOrderQty >= 0 {
      forall s | s in sim.risk.positions
        ensures Abs(sim.risk.positions[s].netQty) <= limits.maxPosition
      {
        PositionStaysWithinLimit(symbols, limits, rs, s);
      }
    }
    forall s | s in symbols
      ensures s in sim.views && Settles(sim.View(), s, LastTick(rs, s, None))
    {
      ProfitIsTape(symbols, limits, rs, s);
    }
  }
}
