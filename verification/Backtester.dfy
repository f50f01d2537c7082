/**
 The backtester as an object over the exchange simulator: it handles a tick and the strategy's signals
 for it one by one, changing the simulator, the map of live orders and the result tally in place.
 */
module Backtesters {
  import opened Types
  import opened FlatBook
  import opened Lifecycle
  import opened OrderBooks
  import Risk
  import opened Simulator
  import opened SimulatorRuns
  import opened Backtest
  import opened SignalEffects
  import opened BacktestProfit

  lemma {:induction false} CancelOneMore(books: map<string, Book>, live: map<OrderId, LiveOrder>, ids: seq<OrderId>,
                                         id: OrderId)
    requires id in live && forall i :: 0 <= i < |ids| ==> ids[i] in live
    ensures CancelEach(books, live, ids + [id]) == CancelIn(CancelEach(books, live, ids), live[id].symbol, id)
    decreases |ids|
  {
    hide CancelIn;
    var all := ids + [id];
    if ids == [] {
      assert all == [id] && all[1..] == [];
    } else {
      assert all[0] == ids[0] && all[1..] == ids[1..] + [id];
      CancelOneMore(CancelIn(books, live[ids[0]].symbol, ids[0]), live, ids[1..], id);
    }
  }

  /** A signal with the two clock readings its submission would take. */
  datatype TimedSignal = TimedSignal(sig: Signal, windowNow: int, stampNow: int)

  /** A tick and the strategy's signals for it. */
  datatype TickBatch = TickBatch(tick: Moment, signals: seq<TimedSignal>)

  function At(tick: Moment, s: TimedSignal): Moment {
    tick.(windowNow := s.windowNow, stampNow := s.stampNow)
  }

  /** What a tick makes the backtester handle, leaving open how CANCEL_ALL would walk the hash map. */
  function InputsOf(batch: TickBatch): seq<Input> {
    [TickInput(batch.tick)]
    + seq(|batch.signals|, i requires 0 <= i < |batch.signals| =>
        SignalInput(batch.signals[i].sig, At(batch.tick, batch.signals[i]), []))
  }

  function AllInputs(batches: seq<TickBatch>): seq<Input> {
    if batches == [] then [] else AllInputs(batches[..|batches| - 1]) + InputsOf(batches[|batches| - 1])
  }

  function WithoutWalk(input: Input): Input {
    if input.SignalInput? then input.(walk := []) else input
  }

  function WithoutWalks(inputs: seq<Input>): (plain: seq<Input>)
    ensures |plain| == |inputs|
  {
    seq(|inputs|, i requires 0 <= i < |inputs| => WithoutWalk(inputs[i]))
  }

  lemma WalksJoin(a: seq<Input>, c: seq<Input>)
    ensures WithoutWalks(a + c) == WithoutWalks(a) + WithoutWalks(c)
  {
  }

  class Backtester {
    const sim: ExchangeSimulator
    var live: map<OrderId, LiveOrder>
    var tally: Tally

    /** Ids come from a counter, so an id not handed out yet is not in the simulator's store. */
    ghost predicate Valid()
      reads this, sim, sim.risk, sim.owner.Keys
    {
      && sim.Valid() && this !in sim.owner && sim.risk.limits.enabled
      && forall id :: id in sim.store ==> id <= sim.nextOid
    }

    ghost function Current(): State
      reads this, sim, sim.risk
    {
      State(sim.View(), sim.nextOid, live, tally)
    }

    constructor (symbols: seq<string>, limits: Risk.RiskLimits)
      requires limits.enabled
      ensures Valid() && fresh(sim) && fresh(sim.risk) && fresh(sim.owner.Keys)
      ensures Current() == Start((set s | s in symbols), limits)
    {
      hide ExchangeSimulator.Valid;
      sim := new ExchangeSimulator(limits);
      live, tally := map[], Tally(0, 0, 0, []);
      new;
      for i := 0 to |symbols|
        invariant sim.Valid() && this !in sim.owner && fresh(sim.owner.Keys)
        invariant sim.store == map[] && Current() == Start((set s | s in symbols[..i]), limits)
      {
        SymbolsGrow(symbols[..i], symbols[i], limits);
        sim.AddSymbol(symbols[i]);
        assert symbols[..i + 1] == symbols[..i] + [symbols[i]];
      }
      assert symbols[..|symbols|] == symbols;
    }

    /** CANCEL_ALL: walk the live orders in some order, cancel each in its own symbol's book, forget all. */
    method CancelAll() returns (ghost walk: seq<OrderId>)
      requires Valid()
      modifies this`live, sim`views, sim.owner.Keys
      ensures Valid() && WalksLive(old(Current()), walk)
      ensures sim.views == CancelEach(old(sim.views), old(live), walk)
      ensures live == map[]
      ensures sim.risk.View() == old(sim.risk.View())
    {
      hide ExchangeSimulator.Valid, Cancel;
      var todo := live.Keys;
      walk := [];
      sim.SameSymbols();
      while todo != {}
        invariant sim.Valid() && todo <= live.Keys == old(live.Keys) && live == old(live)
        invariant (set id | id in walk) == live.Keys - todo
        invariant forall i :: 0 <= i < |walk| ==> walk[i] in live
        invariant sim.views == CancelEach(old(sim.views), live, walk)
        invariant sim.risk.View() == old(sim.risk.View())
      {
        var id :| id in todo;
        var ok := sim.CancelOrder(live[id].symbol, id);
        assert live.Keys - (todo - {id}) == live.Keys - todo + {id};
        assert (set x | x in walk + [id]) == (set x | x in walk) + {id};
        CancelOneMore(old(sim.views), live, walk, id);
        walk, todo := walk + [id], todo - {id};
      }
      live := map[];
    }

    /** Give a BUY or SELL signal's order the next id and submit it. */
    method Send(sig: Signal, symbol: string, now: Moment) returns (o: OrderRec, res: SubmitResult)
      requires Valid()
      modifies sim, sim.risk, sim.owner.Keys
      ensures Valid() && old(sim.owner.Keys) <= sim.owner.Keys && fresh(sim.owner.Keys - old(sim.owner.Keys))
      ensures sim.nextOid == old(sim.nextOid) + 1 && o == OrderOf(sig, sim.nextOid)
      ensures (sim.View(), res)
                == Submit(old(sim.View()), symbol, o, Risk.FromPrice(now.lastPrice), now.windowNow, now.stampNow)
      ensures live == old(live) && tally == old(tally)
    {
      hide ExchangeSimulator.Valid, Submit;
      sim.SameSymbols();
      var id := sim.NextOrderId();
      o := OrderOf(sig, id);
      SubmitKeepsLimits(sim.View(), symbol, o, Risk.FromPrice(now.lastPrice), now.windowNow, now.stampNow);
      res := sim.SubmitOrder(symbol, o, Risk.FromPrice(now.lastPrice), now.windowNow, now.stampNow);
    }

    /** BUY and SELL: the order is live from its acceptance on, since the caller's copy stays pending. */
    method SubmitSignal(sig: Signal, now: Moment)
      requires Valid() && (sig.action.BuyAction? || sig.action.SellAction?)
      modifies this, sim, sim.risk, sim.owner.Keys
      ensures Valid() && old(sim.owner.Keys) <= sim.owner.Keys && fresh(sim.owner.Keys - old(sim.owner.Keys))
      ensures Current() == Process(old(Current()), sig, now, [])
    {
      hide ExchangeSimulator.Valid, Submit;
      sim.SameSymbols();
      var symbol := if sig.symbol == "" then now.symbol else sig.symbol;
      tally := tally.(submitted := tally.submitted + 1);
      var o, res := Send(sig, symbol, now);
      sim.SameSymbols();
      if res.Accepted? {
        live := live[o.id := LiveOrder(symbol, o)];
        tally := tally.(filled := tally.filled + |res.trades|, trades := tally.trades + res.trades);
      } else {
        tally := tally.(rejected := tally.rejected + 1);
      }
    }

    method ProcessSignal(sig: Signal, now: Moment) returns (ghost walk: seq<OrderId>)
      requires Valid()
      modifies this, sim, sim.risk, sim.owner.Keys
      ensures Valid() && old(sim.owner.Keys) <= sim.owner.Keys && fresh(sim.owner.Keys - old(sim.owner.Keys))
      ensures Possible(old(Current()), SignalInput(sig, now, walk))
      ensures Current() == Advance(old(Current()), SignalInput(sig, now, walk))
    {
      hide ExchangeSimulator.Valid, Submit, Cancel, CancelEach;
      walk := [];
      sim.SameSymbols();
      match sig.action {
        case NoAction =>
        case CancelAction =>
          var ok := sim.CancelOrder(now.symbol, sig.cancelId);
          live := live - {sig.cancelId};
        case CancelAllAction =>
          walk := CancelAll();
        case _ =>
          SubmitSignal(sig, now);
      }
    }

    /** One tick: mark the position to the tick's price, then handle the strategy's signals in order. */
    method ProcessTick(batch: TickBatch) returns (ghost inputs: seq<Input>)
      requires Valid()
      modifies this, sim, sim.risk, sim.owner.Keys
      ensures Valid() && old(sim.owner.Keys) <= sim.owner.Keys && fresh(sim.owner.Keys - old(sim.owner.Keys))
      ensures WithoutWalks(inputs) == InputsOf(batch)
      ensures PossibleStream(old(Current()), inputs) && Current() == AdvanceAll(old(Current()), inputs)
    {
      hide Valid, Possible, Advance;
      var tick, sigs := batch.tick, batch.signals;
      inputs := [TickInput(tick)];
      MarkToTick(tick);
      for i := 0 to |sigs|
        invariant Valid() && old(sim.owner.Keys) <= sim.owner.Keys && fresh(sim.owner.Keys - old(sim.owner.Keys))
        invariant WithoutWalks(inputs) == InputsOf(batch)[..i + 1]
        invariant PossibleStream(old(Current()), inputs) && Current() == AdvanceAll(old(Current()), inputs)
      {
        var now := At(tick, sigs[i]);
        var walk := ProcessSignal(sigs[i].sig, now);
        var input := SignalInput(sigs[i].sig, now, walk);
        AdvanceOneMore(old(Current()), inputs, input);
        WalksJoin(inputs, [input]);
        inputs := inputs + [input];
      }
    }

    /** The loop over all ticks, each with the strategy's signals for it. */
    method ProcessTicks(batches: seq<TickBatch>) returns (ghost inputs: seq<Input>)
      requires Valid()
      modifies this, sim, sim.risk, sim.owner.Keys
      ensures Valid() && old(sim.owner.Keys) <= sim.owner.Keys && fresh(sim.owner.Keys - old(sim.owner.Keys))
      ensures WithoutWalks(inputs) == AllInputs(batches)
      ensures PossibleStream(old(Current()), inputs) && Current() == AdvanceAll(old(Current()), inputs)
    {
      hide Valid, Possible, Advance, InputsOf;
      inputs := [];
      for i := 0 to |batches|
        invariant Valid() && old(sim.owner.Keys) <= sim.owner.Keys && fresh(sim.owner.Keys - old(sim.owner.Keys))
        invariant WithoutWalks(inputs) == AllInputs(batches[..i])
        invariant PossibleStream(old(Current()), inputs) && Current() == AdvanceAll(old(Current()), inputs)
      {
        ghost var more := ProcessTick(batches[i]);
        AdvanceJoin(old(Current()), inputs, more);
        WalksJoin(inputs, more);
        assert batches[..i + 1][..i] == batches[..i];
        inputs := inputs + more;
      }
      assert batches[..|batches|] == batches;
    }

    /** Nothing rests in any book: no level, no indexed order. */
    ghost predicate Cleared()
      reads this, sim, sim.books.Values
    {
      forall s :: s in sim.books ==>
        sim.books[s].bids == map[] && sim.books[s].asks == map[] && sim.books[s].orders == map[]
    }

    lemma ClearedWhenViewsAre()
      requires Valid() && forall s :: s in sim.views ==> sim.views[s].resting == []
      ensures Cleared()
    {
      hide OrderBook.Valid, Known, WellFormed, ExchangeSimulator.Valid;
      sim.SameSymbols();
      forall s | s in sim.books
        ensures sim.books[s].bids == map[] && sim.books[s].asks == map[] && sim.books[s].orders == map[]
      {
        sim.ReadyToChange(s);
        sim.books[s].EmptyViewMeansEmptyBook();
      }
    }

    method MarkToTick(tick: Moment)
      requires Valid()
      modifies sim.risk
      ensures Valid() && Current() == Advance(old(Current()), TickInput(tick))
      ensures PossibleStream(old(Current()), [TickInput(tick)])
      ensures Current() == AdvanceAll(old(Current()), [TickInput(tick)])
    {
      hide ExchangeSimulator.Valid;
      sim.SameSymbols();
      sim.OnTick(tick.symbol, tick.lastPrice);
      assert [TickInput(tick)][1..] == [];
    }
  }

  /** A whole backtest: a new simulator, its symbols, all ticks with their signals, and CANCEL_ALL in the
      end. What is handled is exactly those ticks and signals, in order; and if every CANCEL among them
      named only orders of its tick's own symbol, every book object ends up empty. The tally is the books'
      tapes, and every position and profit what its tape and its last tick make of it. */
  method RunBacktest(symbols: seq<string>, limits: Risk.RiskLimits, batches: seq<TickBatch>, last: Moment)
    returns (tester: Backtester, ghost inputs: seq<Input>, ghost walk: seq<OrderId>)
    requires limits.enabled
    ensures tester.Valid() && PossibleStream(Start((set s | s in symbols), limits), inputs)
    ensures WithoutWalks(inputs) == AllInputs(batches)
    ensures var st := AdvanceAll(Start((set s | s in symbols), limits), inputs);
            WalksLive(st, walk) && tester.Current() == Process(st, CancelAllSignal(), last, walk)
    ensures CancelsAreLocal(Start((set s | s in symbols), limits), inputs) ==> tester.Cleared()
    ensures Tallied(tester.Current())
    ensures forall s :: s in symbols ==>
              s in tester.sim.views && Settles(tester.Current().sim, s, LastTickOf(AllInputs(batches), s, None))
  {
    hide Backtester.Valid, Start, AdvanceAll, PossibleStream, CancelsAreLocal, Process, Sound, WalksLive, Tallied;
    hide Settles, LastTickOf;
    tester := new Backtester(symbols, limits);
    inputs := tester.ProcessTicks(batches);
    walk := tester.ProcessSignal(CancelAllSignal(), last);
    ghost var keys := set s | s in symbols;
    CancelAllIsProcess(AdvanceAll(Start(keys, limits), inputs), last, walk);
    if CancelsAreLocal(Start(keys, limits), inputs) {
      CancelAllClearsTheBacktest(keys, limits, inputs, CancelAllSignal(), last, walk);
      tester.ClearedWhenViewsAre();
    }
    RunSettles(keys, limits, inputs, last, walk);
    forall s
      ensures LastTickOf(inputs, s, None) == LastTickOf(AllInputs(batches), s, None)
    {
      WalksDoNotTick(inputs, s, None);
    }
  }

  /** What was shown over streams, for a stream with CANCEL_ALL in the end. */
  lemma RunSettles(keys: set<string>, limits: Risk.RiskLimits, inputs: seq<Input>, last: Moment, walk: seq<OrderId>)
    requires limits.enabled && PossibleStream(Start(keys, limits), inputs)
    requires WalksLive(AdvanceAll(Start(keys, limits), inputs), walk)
    ensures var st := Process(AdvanceAll(Start(keys, limits), inputs), CancelAllSignal(), last, walk);
            && Tallied(st)
            && forall s :: s in keys ==> s in st.sim.books && Settles(st.sim, s, LastTickOf(inputs, s, None))
  {
    hide AdvanceAll, PossibleStream, Process, Tallied, Settles, LastTickOf, WalksLive, Orderly;
    var start, end := Start(keys, limits), SignalInput(CancelAllSignal(), last, walk);
    AdvanceOneMore(start, inputs, end);
    StartIsOrderly(keys, limits);
    AllTallied(start, inputs + [end]);
    forall s | s in keys
      ensures var st := AdvanceAll(start, inputs + [end]);
              s in st.sim.books && Settles(st.sim, s, LastTickOf(inputs, s, None))
    {
      BacktestSettles(keys, limits, inputs + [end], s);
      SignalsDoNotTick(inputs, end, s, None);
    }
  }

  lemma {:induction false} WalksDoNotTick(inputs: seq<Input>, symbol: string, before: Option<Price>)
    ensures LastTickOf(inputs, symbol, before) == LastTickOf(WithoutWalks(inputs), symbol, before)
    decreases |inputs|
  {
    if inputs != [] {
      assert WithoutWalks(inputs)[1..] == WithoutWalks(inputs[1..]);
      WalksDoNotTick(inputs[1..], symbol, InputTick(inputs[0], symbol, before));
    }
  }

  lemma CancelAllIsProcess(st: State, now: Moment, walk: seq<OrderId>)
    requires Possible(st, SignalInput(CancelAllSignal(), now, walk))
    ensures WalksLive(st, walk)
    ensures Advance(st, SignalInput(CancelAllSignal(), now, walk)) == Process(st, CancelAllSignal(), now, walk)
  {
  }

  lemma SubmitKeepsLimits(st: Sim, symbol: string, o: OrderRec, currentPrice: real, windowNow: int, stampNow: int)
    ensures Submit(st, symbol, o, currentPrice, windowNow, stampNow).0.risk.limits == st.risk.limits
  {
    hide Add, ReportAll;
    var (risk, verdict) := Risk.Check(st.risk, symbol, o, currentPrice, windowNow, stampNow);
    if symbol in st.books {
      ReportsKeepLimits(risk, o, Add(st.books[symbol], o).trades);
    }
  }
}
