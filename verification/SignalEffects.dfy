/**
 What one BUY or SELL signal does to the backtest: when it is accepted, which order it places and where,
 what is tallied, and how the position moves. Over whole streams, the tally is the books' tapes.
 */
module SignalEffects {
  import opened Types
  import opened FlatBook
  import opened BookInvariants
  import opened PriceLevels
  import opened Matching
  import opened Lifecycle
  import opened OperationEffects
  import Risk
  import Protocol = SubmitProtocol
  import opened Simulator
  import opened Backtest

  function NetOf(st: State, symbol: string): Quantity {
    Risk.PositionOf(st.sim.risk.positions, symbol).netQty
  }

  function TargetOf(sig: Signal, now: Moment): string {
    if sig.symbol == "" then now.symbol else sig.symbol
  }

  /** The order a signal asks for. */
  function Asked(sig: Signal, id: OrderId): OrderRec {
    OrderRec(id, if sig.action == BuyAction then Buy else Sell, sig.typ, sig.price, sig.qty, 0, Pending)
  }

  predicate Accepts(st: State, sig: Signal, now: Moment)
    requires sig.action.BuyAction? || sig.action.SellAction?
  {
    Process(st, sig, now, []).tally.rejected == st.tally.rejected
  }

  // ---------------------------------------------------------------- acceptance

  /** A signal is accepted if and only if its symbol is listed and its order is within every limit, at the
      tick's last price where that is positive, and the approvals kept of the last second leave room. */
  lemma AcceptedIff(st: State, sig: Signal, now: Moment)
    requires Orderly(st) && (sig.action.BuyAction? || sig.action.SellAction?)
    ensures var s, limits := TargetOf(sig, now), st.sim.risk.limits;
            var dollars := (if now.lastPrice > 0 then now.lastPrice else sig.price) as real / 10000.0;
            var projected := NetOf(st, s) + if sig.action == BuyAction then sig.qty else -sig.qty;
            Accepts(st, sig, now) <==>
              && s in st.sim.books && 0 < sig.qty <= limits.maxOrderQty && (sig.typ == Limit ==> sig.price > 0)
              && sig.qty as real * dollars <= limits.maxNotional
              && -limits.maxPosition <= projected <= limits.maxPosition
              && |Risk.PopOld(st.sim.risk.stamps, now.windowNow - 1_000_000_000)| < limits.maxOrdersPerSec
  {
    hide Add, ReportAll, Risk.PopOld, WellFormed, Known;
  }

  lemma RejectedChangesNothing(st: State, sig: Signal, now: Moment)
    requires (sig.action.BuyAction? || sig.action.SellAction?) && !Accepts(st, sig, now)
    ensures var st' := Process(st, sig, now, []);
            && st'.sim.books == st.sim.books && st'.live == st.live && st'.nextOid == st.nextOid + 1
            && st'.sim.risk.positions == st.sim.risk.positions && st'.sim.risk.marketPrices == st.sim.risk.marketPrices
            && st'.tally == Tally(st.tally.submitted + 1, st.tally.rejected + 1, st.tally.filled, st.tally.trades)
  {
    hide Add, ReportAll, Risk.EarlyVerdict, Risk.PopOld;
  }

  // ---------------------------------------------------------------- reporting

  lemma {:induction false} ReportsMoveNet(risk: Risk.RiskState, o: OrderRec, trades: seq<Trade>, symbol: string,
                                         s: string)
    requires forall i :: 0 <= i < |trades| ==> TakenBy(trades[i], symbol, o)
    ensures Risk.PositionOf(ReportAll(risk, o, trades).positions, s).netQty
         == Risk.PositionOf(risk.positions, s).netQty
            + if s != symbol then 0 else if o.side.Buy? then Volume(trades) else -Volume(trades)
    decreases |trades|
  {
    hide Risk.WithFill;
    if trades != [] {
      var t := trades[0];
      var side, px := Protocol.FillSide(t, o), Risk.FromPrice(t.price);
      assert TakenBy(t, symbol, o);
      Risk.FillMovesNet(Risk.PositionOf(risk.positions, symbol), side, t.qty, px);
      ReportsMoveNet(Risk.OnFill(risk, symbol, side, t.qty, px), o, trades[1..], symbol, s);
    }
  }

  lemma CheckKeepsPositions(st: Risk.RiskState, symbol: string, o: OrderRec, currentPrice: real, windowNow: int,
                            stampNow: int)
    ensures Risk.Check(st, symbol, o, currentPrice, windowNow, stampNow).0.positions == st.positions
  {
  }

  // ---------------------------------------------------------------- an accepted signal

  /** The signal's order is the one that was asked for, with the next id, added to its symbol's book. */
  lemma AcceptedAdds(st: State, sig: Signal, now: Moment)
    requires Orderly(st) && (sig.action.BuyAction? || sig.action.SellAction?) && Accepts(st, sig, now)
    ensures var s, o, st' := TargetOf(sig, now), Asked(sig, st.nextOid + 1), Process(st, sig, now, []);
            && s in st.sim.books && o.qty > 0
            && var r := Add(st.sim.books[s], o);
            && st'.nextOid == o.id && st'.live == st.live[o.id := LiveOrder(s, o)]
            && st'.sim.books == st.sim.books[s := r.book]
            && st'.tally == Tally(st.tally.submitted + 1, st.tally.rejected, st.tally.filled + |r.trades|,
                                  st.tally.trades + r.trades)
            && exists risk: Risk.RiskState ::
                 risk.positions == st.sim.risk.positions && st'.sim.risk == ReportAll(risk, o, r.trades)
  {
    hide Add, ReportAll, Risk.Check, WellFormed, Known;
    var s, o := TargetOf(sig, now), Asked(sig, st.nextOid + 1);
    var px := Risk.FromPrice(now.lastPrice);
    CheckKeepsPositions(st.sim.risk, s, o, px, now.windowNow, now.stampNow);
    CheckMeans(st.sim.risk, s, o, px, now.windowNow, now.stampNow);
    var risk := Risk.Check(st.sim.risk, s, o, px, now.windowNow, now.stampNow).0;
    assert risk.positions == st.sim.risk.positions;
  }

  /** An accepted signal: every new trade names its id on its own side and only there, at its symbol; the
      tally gains exactly the trades its book's callback saw; its order goes live as asked; the position
      moves by the traded volume, up for BUY and down for SELL; nothing moves at other symbols. */
  lemma SignalEffect(st: State, sig: Signal, now: Moment)
    requires Orderly(st) && (sig.action.BuyAction? || sig.action.SellAction?) && Accepts(st, sig, now)
    ensures var s, id, st' := TargetOf(sig, now), st.nextOid + 1, Process(st, sig, now, []);
            && s in st.sim.books && s in st'.sim.books && st'.nextOid == id
            && id in st'.live && st'.live[id] == LiveOrder(s, Asked(sig, id))
            && |st'.tally.trades| >= |st.tally.trades|
            && var gained := st'.tally.trades[|st.tally.trades|..];
            && st'.tally.trades == st.tally.trades + gained && st'.tally.filled == st.tally.filled + |gained|
            && Tape(st'.sim.books[s].log) == Tape(st.sim.books[s].log) + gained
            && (forall i :: 0 <= i < |gained| ==>
                  && gained[i].symbol == st.sim.books[s].symbol && gained[i].qty > 0
                  && (if sig.action == BuyAction then gained[i].buyId == id && gained[i].sellId != id
                      else gained[i].sellId == id && gained[i].buyId != id))
            && st'.sim.books == st.sim.books[s := st'.sim.books[s]]
            && (st.sim.books[s].symbol == s ==>
                  forall x :: NetOf(st', x) == NetOf(st, x)
                    + if x != s then 0 else if sig.action == BuyAction then Volume(gained) else -Volume(gained))
  {
    hide Add, ReportAll, Known, Tape, Volume, WellFormed, Process;
    var s, o, st' := TargetOf(sig, now), Asked(sig, st.nextOid + 1), Process(st, sig, now, []);
    AcceptedAdds(st, sig, now);
    var b := st.sim.books[s];
    var r := Add(b, o);
    FreshOrder(st, s, o);
    AddTradesTaken(b, o);
    AddTape(b, o);
    assert st'.tally.trades[|st.tally.trades|..] == r.trades;
    var risk: Risk.RiskState :| risk.positions == st.sim.risk.positions && st'.sim.risk == ReportAll(risk, o, r.trades);
    if b.symbol == s {
      forall x
        ensures NetOf(st', x) == NetOf(st, x)
                  + if x != s then 0 else if sig.action == BuyAction then Volume(r.trades) else -Volume(r.trades)
      {
        ReportsMoveNet(risk, o, r.trades, s, x);
      }
    }
  }

  lemma FreshOrder(st: State, s: string, o: OrderRec)
    requires Orderly(st) && s in st.sim.books && o.id == st.nextOid + 1 && o.qty > 0 && o.filled == 0
    ensures WellFormed(st.sim.books[s]) && Incoming(st.sim.books[s], o)
  {
    var b := st.sim.books[s];
    assert o.id !in Known(b);
    forall i | 0 <= i < |b.resting|
      ensures b.resting[i].id != o.id
    {
      assert b.resting[i] in b.resting;
    }
  }

  /** Where the order rests: only in its own book, only what remains of a limit order, and there at the back
      of the queue of the signal's side and price, with the signal's quantity; all other queues of that side
      are as they were. */
  lemma SignalRests(st: State, sig: Signal, now: Moment)
    requires Orderly(st) && (sig.action.BuyAction? || sig.action.SellAction?) && Accepts(st, sig, now)
    ensures var s, id, st' := TargetOf(sig, now), st.nextOid + 1, Process(st, sig, now, []);
            && s in st.sim.books && s in st'.sim.books && |st'.tally.trades| >= |st.tally.trades|
            && var side := if sig.action == BuyAction then Buy else Sell;
            && var v := Volume(st'.tally.trades[|st.tally.trades|..]);
            && (forall x :: x in st'.sim.books && x != s ==> id !in Ids(st'.sim.books[x].resting))
            && (forall p ::
                  QueueAt(st'.sim.books[s].resting, side, p) ==
                  QueueAt(st.sim.books[s].resting, side, p) +
                  if sig.typ == Limit && v < sig.qty && p == sig.price
                  then [OrderRec(id, side, Limit, sig.price, sig.qty, v, if v == 0 then New else PartiallyFilled)]
                  else [])
  {
    hide Add, ReportAll, Known, Volume, WellFormed, Process, QueueAt, PriorityQueue, Eat, Leftover, EligibleQty;
    var s, o, st' := TargetOf(sig, now), Asked(sig, st.nextOid + 1), Process(st, sig, now, []);
    AcceptedAdds(st, sig, now);
    var b := st.sim.books[s];
    FreshOrder(st, s, o);
    AddEffect(b, o);
    assert st'.tally.trades[|st.tally.trades|..] == Add(b, o).trades;
    if o.typ.Fok? {
      FillOrKill(b, o);
    } else {
      MaximalMatching(b, o);
    }
    forall x | x in st'.sim.books && x != s
      ensures o.id !in Ids(st'.sim.books[x].resting)
    {
      RestingIsKnown(st.sim.books[x]);
    }
  }

  // ---------------------------------------------------------------- whole streams

  /** The trades of one symbol, in order. */
  function OfSymbol(ts: seq<Trade>, symbol: string): seq<Trade> {
    if ts == [] then [] else (if ts[0].symbol == symbol then [ts[0]] else []) + OfSymbol(ts[1..], symbol)
  }

  lemma {:induction false} OfSymbolConcat(a: seq<Trade>, c: seq<Trade>, symbol: string)
    ensures OfSymbol(a + c, symbol) == OfSymbol(a, symbol) + OfSymbol(c, symbol)
  {
    if a == [] {
      assert a + c == c;
    } else {
      var all := a + c;
      assert all[0] == a[0] && all[1..] == a[1..] + c;
      OfSymbolConcat(a[1..], c, symbol);
      var head := if a[0].symbol == symbol then [a[0]] else [];
      var more, rest := OfSymbol(a[1..], symbol), OfSymbol(c, symbol);
      assert head + (more + rest) == (head + more) + rest;
    }
  }

  lemma {:induction false} OneSymbol(ts: seq<Trade>, symbol: string, s: string)
    requires forall i :: 0 <= i < |ts| ==> ts[i].symbol == symbol
    ensures OfSymbol(ts, s) == if s == symbol then ts else []
  {
    if ts != [] {
      OneSymbol(ts[1..], symbol, s);
    }
  }

  /** For every listed symbol, the tally holds exactly the trades of its book's tape, in order. */
  ghost predicate Tallied(st: State) {
    forall s :: s in st.sim.books ==>
      st.sim.books[s].symbol == s && OfSymbol(st.tally.trades, s) == Tape(st.sim.books[s].log)
  }

  lemma SubmitTallies(st: State, sig: Signal, now: Moment, walk: seq<OrderId>)
    requires Orderly(st) && Tallied(st) && (sig.action.BuyAction? || sig.action.SellAction?)
    ensures Tallied(Process(st, sig, now, walk))
  {
    hide Orderly, Process, Tape, Volume, OfSymbol;
    var s, st' := TargetOf(sig, now), Process(st, sig, now, []);
    WalkIsIgnored(st, sig, now, walk);
    if Accepts(st, sig, now) {
      SignalEffect(st, sig, now);
      AcceptedKeepsSymbol(st, sig, now);
      var gained := st'.tally.trades[|st.tally.trades|..];
      forall x | x in st'.sim.books
        ensures st'.sim.books[x].symbol == x && OfSymbol(st'.tally.trades, x) == Tape(st'.sim.books[x].log)
      {
        OfSymbolConcat(st.tally.trades, gained, x);
        OneSymbol(gained, s, x);
        assert OfSymbol(st.tally.trades, x) + [] == OfSymbol(st.tally.trades, x);
      }
    } else {
      RejectedChangesNothing(st, sig, now);
    }
  }

  lemma WalkIsIgnored(st: State, sig: Signal, now: Moment, walk: seq<OrderId>)
    requires sig.action.BuyAction? || sig.action.SellAction?
    ensures Process(st, sig, now, walk) == Process(st, sig, now, [])
  {
  }

  lemma AcceptedKeepsSymbol(st: State, sig: Signal, now: Moment)
    requires Orderly(st) && (sig.action.BuyAction? || sig.action.SellAction?) && Accepts(st, sig, now)
    ensures var s, st' := TargetOf(sig, now), Process(st, sig, now, []);
            s in st.sim.books && s in st'.sim.books && st'.sim.books[s].symbol == st.sim.books[s].symbol
  {
    hide Process, Add, Known, WellFormed;
    AcceptedAdds(st, sig, now);
    var s, o := TargetOf(sig, now), Asked(sig, st.nextOid + 1);
    FreshOrder(st, s, o);
    AddTradesTaken(st.sim.books[s], o);
  }

  lemma CancelKeepsTape(books: map<string, Book>, symbol: string, id: OrderId)
    ensures var books' := CancelIn(books, symbol, id);
            && books'.Keys == books.Keys
            && forall s :: s in books ==>
                 books'[s].symbol == books[s].symbol && Tape(books'[s].log) == Tape(books[s].log)
  {
    hide Tape;
    if symbol in books {
      CancelTape(books[symbol], id);
    }
  }

  lemma {:induction false} CancelEachKeepsTape(books: map<string, Book>, live: map<OrderId, LiveOrder>,
                                              ids: seq<OrderId>)
    requires forall i :: 0 <= i < |ids| ==> ids[i] in live
    ensures var books' := CancelEach(books, live, ids);
            && books'.Keys == books.Keys
            && forall s :: s in books ==>
                 books'[s].symbol == books[s].symbol && Tape(books'[s].log) == Tape(books[s].log)
    decreases |ids|
  {
    hide Tape, CancelIn;
    if ids != [] {
      CancelKeepsTape(books, live[ids[0]].symbol, ids[0]);
      CancelEachKeepsTape(CancelIn(books, live[ids[0]].symbol, ids[0]), live, ids[1..]);
    }
  }

  lemma AdvanceTallies(st: State, input: Input)
    requires Orderly(st) && Tallied(st) && Possible(st, input)
    ensures Tallied(Advance(st, input))
  {
    hide Orderly, Submit, Tape, OfSymbol, CancelIn, CancelEach, WalksLive;
    match input
    case TickInput(now) =>
    case SignalInput(sig, now, walk) =>
      match sig.action {
        case NoAction =>
        case BuyAction => SubmitTallies(st, sig, now, walk);
        case SellAction => SubmitTallies(st, sig, now, walk);
        case CancelAction => CancelKeepsTape(st.sim.books, now.symbol, sig.cancelId);
        case CancelAllAction =>
          WalkIsLive(st, walk);
          CancelEachKeepsTape(st.sim.books, st.live, walk);
      }
  }

  lemma WalkIsLive(st: State, walk: seq<OrderId>)
    requires WalksLive(st, walk)
    ensures forall i :: 0 <= i < |walk| ==> walk[i] in st.live
  {
  }

  lemma {:induction false} AllTallied(st: State, inputs: seq<Input>)
    requires Orderly(st) && Tallied(st) && PossibleStream(st, inputs)
    ensures Tallied(AdvanceAll(st, inputs))
    decreases |inputs|
  {
    hide Orderly, Tallied, Advance, Possible;
    if inputs != [] {
      AdvanceTallies(st, inputs[0]);
      AdvanceKeepsOrderly(st, inputs[0]);
      AllTallied(Advance(st, inputs[0]), inputs[1..]);
    }
  }
}
