/**
 The money side of the submit protocol: the tracked positions carry exactly the dollars that the books'
 trades moved, fill by fill and at the trades' own prices, however submitters interleave.
 */
module SubmitCash {
  import opened Types
  import opened FlatBook
  import opened TakerFlow
  import opened SubmitProtocol
  import Risk
  import RiskTheorems

  function PosOf(sys: Sys, symbol: string): Risk.Position {
    Risk.PositionOf(sys.risk.positions, symbol)
  }

  /** Realized profit less what the open position cost. */
  function Booked(pos: Risk.Position): real {
    pos.realizedPnl - pos.netQty as real * pos.avgPrice
  }

  /** Dollars of fills made but not yet reported. */
  function UnreportedValue(fs: seq<Flight>, symbol: string): real {
    if fs == [] then 0.0
    else (if fs[0].symbol == symbol && fs[0].Filling? then Values(fs[0].order.side, fs[0].pending) else 0.0)
         + UnreportedValue(fs[1..], symbol)
  }

  /** With the fills still to be reported, the position has booked what the book's trades moved. */
  ghost predicate CashOk(sys: Sys, s: string)
    requires s in sys.books
  {
    Booked(PosOf(sys, s)) == CashFlow(sys.books[s].log) + UnreportedValue(sys.flights, s)
  }

  /** Once there is a market price, the open position is marked to it. */
  ghost predicate MarkOk(sys: Sys, s: string) {
    s in sys.risk.marketPrices ==>
      PosOf(sys, s).unrealizedPnl == PosOf(sys, s).netQty as real * (sys.risk.marketPrices[s] - PosOf(sys, s).avgPrice)
  }

  ghost predicate CashInv(sys: Sys) {
    (forall s :: s in sys.books ==> CashOk(sys, s)) && (forall s :: MarkOk(sys, s))
  }

  // ---------------------------------------------------------------- sums

  lemma {:induction false} ValueConcat(a: seq<Flight>, c: seq<Flight>, symbol: string)
    ensures UnreportedValue(a + c, symbol) == UnreportedValue(a, symbol) + UnreportedValue(c, symbol)
  {
    hide Values;
    if a == [] {
      assert a + c == c;
    } else {
      assert (a + c)[1..] == a[1..] + c;
      ValueConcat(a[1..], c, symbol);
    }
  }

  /** What one submitter has still to report. */
  function Pending(f: Flight, symbol: string): real {
    if f.symbol == symbol && f.Filling? then Values(f.order.side, f.pending) else 0.0
  }

  lemma ValueOfOne(f: Flight, symbol: string)
    ensures UnreportedValue([f], symbol) == Pending(f, symbol)
  {
    assert [f][1..] == [];
  }

  lemma ValueAt(fs: seq<Flight>, i: nat, f: Flight, symbol: string)
    requires i < |fs|
    ensures UnreportedValue(fs[i := f], symbol)
         == UnreportedValue(fs, symbol) - Pending(fs[i], symbol) + Pending(f, symbol)
    ensures UnreportedValue(RemoveAt(fs, i), symbol) == UnreportedValue(fs, symbol) - Pending(fs[i], symbol)
  {
    hide Pending, UnreportedValue;
    var a, c := fs[..i], fs[i + 1..];
    assert fs == a + ([fs[i]] + c) && fs[i := f] == a + ([f] + c);
    ValueConcat(a, [fs[i]] + c, symbol);
    ValueConcat([fs[i]], c, symbol);
    ValueConcat(a, [f] + c, symbol);
    ValueConcat([f], c, symbol);
    ValueConcat(a, c, symbol);
    ValueOfOne(fs[i], symbol);
    ValueOfOne(f, symbol);
  }

  // ---------------------------------------------------------------- one step

  /** The same positions and market prices: nothing about money has changed. */
  lemma SameMoney(sys: Sys, sys': Sys)
    requires sys'.risk.positions == sys.risk.positions && sys'.risk.marketPrices == sys.risk.marketPrices
    ensures forall s :: PosOf(sys', s) == PosOf(sys, s) && MarkOk(sys', s) == MarkOk(sys, s)
  {
  }

  lemma SubmitKeepsCash(sys: Sys, a: Action)
    requires a.Submit? && Enabled(sys, a) && CashInv(sys)
    ensures CashInv(Do(sys, a))
  {
    hide CashFlow, MarkOk, PosOf, Values, Risk.EarlyVerdict, Risk.PopOld, Booked;
    var sys' := Do(sys, a);
    SameMoney(sys, sys');
    forall s | s in sys'.books
      ensures CashOk(sys', s)
    {
      ValueConcat(sys.flights, [Checked(a.symbol, a.order)], s);
      ValueOfOne(Checked(a.symbol, a.order), s);
      assert CashOk(sys, s);
    }
  }

  lemma EnterKeepsCash(sys: Sys, i: nat)
    requires Inv(sys) && Enabled(sys, Enter(i)) && sys.flights[i].symbol in sys.books && CashInv(sys)
    ensures CashInv(Do(sys, Enter(i)))
  {
    hide CashFlow, MarkOk, PosOf, Values, Add, Inv, Booked, Settled;
    var sys' := Do(sys, Enter(i));
    var f, f' := sys.flights[i], sys'.flights[i];
    SameMoney(sys, sys');
    BookIsSettled(sys, f.symbol);
    AddFlow(sys.books[f.symbol], f.order);
    forall s | s in sys'.books
      ensures CashOk(sys', s)
    {
      ValueAt(sys.flights, i, f', s);
      assert CashOk(sys, s);
    }
  }

  lemma BookIsSettled(sys: Sys, s: string)
    requires Inv(sys) && s in sys.books
    ensures Settled(sys.books[s].log)
  {
    assert BookOk(sys, s);
  }

  lemma DepartureKeepsCash(sys: Sys, i: nat)
    requires i < |sys.flights| && CashInv(sys)
    requires sys.flights[i].Filling? ==> sys.flights[i].pending == []
    ensures CashInv(sys.(flights := RemoveAt(sys.flights, i)))
  {
    hide CashFlow, MarkOk, PosOf, Booked;
    var sys' := sys.(flights := RemoveAt(sys.flights, i));
    SameMoney(sys, sys');
    forall s | s in sys'.books
      ensures CashOk(sys', s)
    {
      ValueAt(sys.flights, i, sys.flights[i], s);
      assert CashOk(sys, s);
    }
  }

  /** A report books the trade's dollars on its symbol's position, and re-marks it. */
  lemma FillBooks(risk: Risk.RiskState, side: Side, t: Trade)
    requires t.qty > 0
    ensures var risk' := Risk.OnFill(risk, t.symbol, side, t.qty, Risk.FromPrice(t.price));
            var pos, pos' := Risk.PositionOf(risk.positions, t.symbol), Risk.PositionOf(risk'.positions, t.symbol);
            && Booked(pos') == Booked(pos) - Value(side, t)
            && (t.symbol in risk.marketPrices ==>
                  pos'.unrealizedPnl == pos'.netQty as real * (risk.marketPrices[t.symbol] - pos'.avgPrice))
            && risk'.marketPrices == risk.marketPrices
            && forall s :: s != t.symbol ==> Risk.PositionOf(risk'.positions, s) == Risk.PositionOf(risk.positions, s)
  {
    hide Risk.WithFill, Risk.Worth, RiskTheorems.OpenCost;
    var pos, px := Risk.PositionOf(risk.positions, t.symbol), t.price as real / 10000.0;
    RiskTheorems.FillConservesCash(pos, side, t.qty, px);
    RiskTheorems.WorthIs(Signed(side, t.qty), px);
    var risk' := Risk.OnFill(risk, t.symbol, side, t.qty, Risk.FromPrice(t.price));
    BookedIs(pos);
    BookedIs(Risk.WithFill(pos, side, t.qty, px));
    BookedIs(Risk.PositionOf(risk'.positions, t.symbol));
    RiskTheorems.MarkedAtWorth(Risk.WithFill(pos, side, t.qty, px),
                               if t.symbol in risk.marketPrices then risk.marketPrices[t.symbol] else px);
  }

  lemma BookedIs(pos: Risk.Position)
    ensures Booked(pos) == pos.realizedPnl - RiskTheorems.OpenCost(pos)
  {
  }

  lemma ReportKeepsCash(sys: Sys, i: nat)
    requires Inv(sys) && Enabled(sys, ReportFill(i)) && CashInv(sys)
    ensures CashInv(Do(sys, ReportFill(i)))
  {
    hide CashFlow, Value, Inv, Booked, Risk.OnFill;
    var sys' := Do(sys, ReportFill(i));
    var f, f' := sys.flights[i], sys'.flights[i];
    var t := f.pending[0];
    ReportMoves(sys, i);
    FillBooks(sys.risk, f.order.side, t);
    forall s | s in sys'.books
      ensures CashOk(sys', s)
    {
      ValueAt(sys.flights, i, f', s);
      assert CashOk(sys, s);
    }
    forall s
      ensures MarkOk(sys', s)
    {
      assert MarkOk(sys, s);
    }
  }

  lemma MaintenanceKeepsCash(sys: Sys, a: Action)
    requires Inv(sys) && Enabled(sys, a) && (a.CancelOrder? || a.ModifyOrder?) && CashInv(sys)
    ensures CashInv(Do(sys, a))
  {
    hide CashFlow, MarkOk, PosOf, Values, Inv, Booked, Settled, Cancel, UnreportedValue;
    var sys' := Do(sys, a);
    SameMoney(sys, sys');
    if a.symbol in sys.books {
      BookIsSettled(sys, a.symbol);
      if a.CancelOrder? {
        CancelFlow(sys.books[a.symbol], a.id);
      }
    }
    forall s | s in sys'.books
      ensures CashOk(sys', s)
    {
      assert CashOk(sys, s);
    }
  }

  /** A market price marks an existing position and leaves what it has booked. */
  lemma PriceMarks(risk: Risk.RiskState, symbol: string, price: real)
    ensures var risk' := Risk.OnPrice(risk, symbol, price);
            var pos, pos' := Risk.PositionOf(risk.positions, symbol), Risk.PositionOf(risk'.positions, symbol);
            && Booked(pos') == Booked(pos) && pos'.unrealizedPnl == pos'.netQty as real * (price - pos'.avgPrice)
            && risk'.marketPrices == risk.marketPrices[symbol := price]
            && forall s :: s != symbol ==> Risk.PositionOf(risk'.positions, s) == Risk.PositionOf(risk.positions, s)
  {
  }

  lemma TickKeepsCash(sys: Sys, a: Action)
    requires a.Tick? && Enabled(sys, a) && CashInv(sys)
    ensures CashInv(Do(sys, a))
  {
    hide CashFlow, Booked, Risk.OnPrice, UnreportedValue;
    var sys' := Do(sys, a);
    PriceMarks(sys.risk, a.symbol, a.lastPrice);
    forall s | s in sys'.books
      ensures CashOk(sys', s)
    {
      assert CashOk(sys, s);
    }
    forall s
      ensures MarkOk(sys', s)
    {
      assert MarkOk(sys, s);
    }
  }

  lemma StepKeepsCash(sys: Sys, a: Action)
    requires Inv(sys) && Enabled(sys, a) && CashInv(sys)
    ensures CashInv(Do(sys, a))
  {
    hide Inv, CashInv;
    match a
    case Submit(_, _, _, _, _) => SubmitKeepsCash(sys, a);
    case Enter(i) =>
      if sys.flights[i].symbol in sys.books { EnterKeepsCash(sys, i); } else { DepartureKeepsCash(sys, i); }
    case ReportFill(i) => ReportKeepsCash(sys, i);
    case Exit(i) => DepartureKeepsCash(sys, i);
    case CancelOrder(_, _) => MaintenanceKeepsCash(sys, a);
    case ModifyOrder(_, _, _, _) => MaintenanceKeepsCash(sys, a);
    case Tick(_, _) => TickKeepsCash(sys, a);
  }

  // ---------------------------------------------------------------- runs

  lemma {:induction false} RunsKeepCash(sys: Sys, actions: seq<Action>)
    requires LegalActions(sys, actions) && Inv(sys) && CashInv(sys)
    ensures CashInv(DoAll(sys, actions))
    decreases |actions|
  {
    hide Inv, CashInv;
    if actions != [] {
      StepKeepsInv(sys, actions[0]);
      StepKeepsCash(sys, actions[0]);
      RunsKeepCash(Do(sys, actions[0]), actions[1..]);
    }
  }

  lemma {:induction false} NothingPending(fs: seq<Flight>, symbol: string)
    requires forall i :: 0 <= i < |fs| ==> fs[i].Checked?
    ensures UnreportedValue(fs, symbol) == 0.0
  {
    if fs != [] {
      NothingPending(fs[1..], symbol);
    }
  }

  /** Whenever nobody is in the middle of reporting: what a listed symbol's position has booked is what its
      book's trades moved, each at its own price; and with a market price, its total profit is that cash plus
      the taker volume at that price. */
  lemma CashEqualsTape(symbols: set<string>, limits: Risk.RiskLimits, actions: seq<Action>, symbol: string)
    requires limits.enabled && LegalActions(Start(symbols, limits), actions)
    requires var sys := DoAll(Start(symbols, limits), actions); symbol in sys.books && LockFree(sys)
    ensures var sys := DoAll(Start(symbols, limits), actions);
            var pos, log := Risk.PositionOf(sys.risk.positions, symbol), sys.books[symbol].log;
            && pos.realizedPnl - pos.netQty as real * pos.avgPrice == CashFlow(log)
            && (symbol in sys.risk.marketPrices ==>
                  pos.realizedPnl + pos.unrealizedPnl
                  == CashFlow(log) + Flow(log) as real * sys.risk.marketPrices[symbol])
  {
    hide Flow, CashFlow, DoAll, LegalActions, Inv, UnreportedValue;
    var start := Start(symbols, limits);
    StartInv(symbols, limits);
    StartCash(symbols, limits);
    RunsKeepCash(start, actions);
    PositionEqualsTape(symbols, limits, actions, symbol);
    var sys := DoAll(start, actions);
    assert CashOk(sys, symbol) && MarkOk(sys, symbol);
    NothingPending(sys.flights, symbol);
    var pos := PosOf(sys, symbol);
    if symbol in sys.risk.marketPrices {
      Spread(pos.netQty, sys.risk.marketPrices[symbol], pos.avgPrice);
    }
  }

  lemma Spread(net: Quantity, mark: real, avg: real)
    ensures net as real * (mark - avg) == net as real * mark - net as real * avg
  {
  }

  lemma StartCash(symbols: set<string>, limits: Risk.RiskLimits)
    ensures CashInv(Start(symbols, limits))
  {
  }
}
