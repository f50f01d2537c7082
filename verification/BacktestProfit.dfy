/**
 A backtest is one caller of the simulator: every stream of ticks and signals is a sequence of requests, so
 positions stay within the limit, and what they show is what the trades and the last ticks make of them.
 */
module BacktestProfit {
  import opened Types
  import opened FlatBook
  import Risk
  import opened Simulator
  import opened SimulatorRuns
  import opened Backtest
  import opened SignalEffects

  function CancelsFor(live: map<OrderId, LiveOrder>, ids: seq<OrderId>): seq<Request>
    requires forall i :: 0 <= i < |ids| ==> ids[i] in live
  {
    if ids == [] then [] else [CancelRequest(live[ids[0]].symbol, ids[0])] + CancelsFor(live, ids[1..])
  }

  /** What one input asks of the simulator. */
  function RequestsFor(st: State, input: Input): seq<Request>
    requires Possible(st, input)
  {
    match input
    case TickInput(now) => [TickRequest(now.symbol, now.lastPrice)]
    case SignalInput(sig, now, walk) =>
      match sig.action
      case NoAction => []
      case CancelAction => [CancelRequest(now.symbol, sig.cancelId)]
      case CancelAllAction => CancelsFor(st.live, walk)
      case _ =>
        [SubmitRequest(TargetOf(sig, now), Asked(sig, st.nextOid + 1), Risk.FromPrice(now.lastPrice),
                       now.windowNow, now.stampNow)]
  }

  function AllRequests(st: State, inputs: seq<Input>): seq<Request>
    requires PossibleStream(st, inputs)
    decreases |inputs|
  {
    if inputs == [] then [] else RequestsFor(st, inputs[0]) + AllRequests(Advance(st, inputs[0]), inputs[1..])
  }

  /** The last tick's price of a symbol in a stream. */
  function LastTickOf(inputs: seq<Input>, symbol: string, before: Option<Price>): Option<Price>
    decreases |inputs|
  {
    if inputs == [] then before else LastTickOf(inputs[1..], symbol, InputTick(inputs[0], symbol, before))
  }

  function InputTick(input: Input, symbol: string, before: Option<Price>): Option<Price> {
    if input.TickInput? && input.now.symbol == symbol then Some(input.now.lastPrice) else before
  }

  function UsedByAll(used: set<OrderId>, rs: seq<Request>): set<OrderId>
    decreases |rs|
  {
    if rs == [] then used else UsedByAll(UsedAfter(used, rs[0]), rs[1..])
  }

  // ---------------------------------------------------------------- request sequences join

  lemma {:induction false} RequestsJoin(st: Sim, used: set<OrderId>, a: seq<Request>, c: seq<Request>)
    ensures ServeAll(st, a + c) == ServeAll(ServeAll(st, a), c)
    ensures FreshIds(used, a) && FreshIds(UsedByAll(used, a), c) ==> FreshIds(used, a + c)
    ensures UsedByAll(used, a + c) == UsedByAll(UsedByAll(used, a), c)
    decreases |a|
  {
    hide Serve;
    if a == [] {
      assert a + c == c;
    } else {
      assert (a + c)[0] == a[0] && (a + c)[1..] == a[1..] + c;
      RequestsJoin(Serve(st, a[0]), UsedAfter(used, a[0]), a[1..], c);
    }
  }

  lemma {:induction false} TicksJoin(a: seq<Request>, c: seq<Request>, symbol: string, before: Option<Price>)
    ensures LastTick(a + c, symbol, before) == LastTick(c, symbol, LastTick(a, symbol, before))
    decreases |a|
  {
    if a == [] {
      assert a + c == c;
    } else {
      assert (a + c)[0] == a[0] && (a + c)[1..] == a[1..] + c;
      TicksJoin(a[1..], c, symbol, TickAfter(a[0], symbol, before));
    }
  }

  // ---------------------------------------------------------------- one input

  lemma {:induction false} CancelsServe(st: Sim, live: map<OrderId, LiveOrder>, ids: seq<OrderId>, used: set<OrderId>)
    requires forall i :: 0 <= i < |ids| ==> ids[i] in live
    ensures var rs := CancelsFor(live, ids);
            && ServeAll(st, rs) == st.(books := CancelEach(st.books, live, ids))
            && FreshIds(used, rs) && UsedByAll(used, rs) == used
            && forall symbol, before :: LastTick(rs, symbol, before) == before
    decreases |ids|
  {
    hide Cancel;
    if ids != [] {
      var first, rest := CancelRequest(live[ids[0]].symbol, ids[0]), CancelsFor(live, ids[1..]);
      var rs := CancelsFor(live, ids);
      assert rs[0] == first && rs[1..] == rest;
      CancelsServe(Serve(st, first), live, ids[1..], used);
    }
  }

  lemma OneRequest(st: Sim, r: Request, used: set<OrderId>, symbol: string, before: Option<Price>)
    ensures ServeAll(st, [r]) == Serve(st, r) && UsedByAll(used, [r]) == UsedAfter(used, r)
    ensures LastTick([r], symbol, before) == TickAfter(r, symbol, before)
    ensures (r.SubmitRequest? ==> r.order.id !in used && r.order.filled == 0) ==> FreshIds(used, [r])
  {
    assert [r][1..] == [];
  }

  lemma InputServes(st: State, input: Input, used: set<OrderId>, symbol: string, before: Option<Price>)
    requires Possible(st, input) && forall id :: id in used ==> id <= st.nextOid
    ensures var rs, st' := RequestsFor(st, input), Advance(st, input);
            && ServeAll(st.sim, rs) == st'.sim && FreshIds(used, rs)
            && (forall id :: id in UsedByAll(used, rs) ==> id <= st'.nextOid)
            && LastTick(rs, symbol, before) == InputTick(input, symbol, before)
  {
    hide Submit, Cancel, CancelEach, LastTick, FreshIds, ServeAll;
    match input
    case TickInput(now) => OneRequest(st.sim, TickRequest(now.symbol, now.lastPrice), used, symbol, before);
    case SignalInput(sig, now, walk) =>
      match sig.action {
        case NoAction => NoRequest(st.sim, used, symbol, before);
        case CancelAction => OneRequest(st.sim, CancelRequest(now.symbol, sig.cancelId), used, symbol, before);
        case CancelAllAction => CancelsServe(st.sim, st.live, walk, used);
        case _ =>
          var o, px := Asked(sig, st.nextOid + 1), Risk.FromPrice(now.lastPrice);
          var r := SubmitRequest(TargetOf(sig, now), o, px, now.windowNow, now.stampNow);
          OneRequest(st.sim, r, used, symbol, before);
      }
  }

  lemma NoRequest(st: Sim, used: set<OrderId>, symbol: string, before: Option<Price>)
    ensures ServeAll(st, []) == st && UsedByAll(used, []) == used && FreshIds(used, [])
    ensures LastTick([], symbol, before) == before
  {
  }

  // ---------------------------------------------------------------- streams

  /** Every stream is served as a sequence of requests with fresh ids, ticks at the same places. */
  lemma {:induction false} StreamServes(st: State, inputs: seq<Input>, used: set<OrderId>, symbol: string,
                                       before: Option<Price>)
    requires PossibleStream(st, inputs) && forall id :: id in used ==> id <= st.nextOid
    ensures var rs := AllRequests(st, inputs);
            && ServeAll(st.sim, rs) == AdvanceAll(st, inputs).sim && FreshIds(used, rs)
            && LastTick(rs, symbol, before) == LastTickOf(inputs, symbol, before)
    decreases |inputs|
  {
    hide Advance, Possible, RequestsFor, InputTick, UsedByAll, ServeAll, FreshIds, LastTick;
    if inputs == [] {
      NoRequest(st.sim, used, symbol, before);
    } else {
      var rs, st1 := RequestsFor(st, inputs[0]), Advance(st, inputs[0]);
      InputServes(st, inputs[0], used, symbol, before);
      StreamServes(st1, inputs[1..], UsedByAll(used, rs), symbol, InputTick(inputs[0], symbol, before));
      RequestsJoin(st.sim, used, rs, AllRequests(st1, inputs[1..]));
      TicksJoin(rs, AllRequests(st1, inputs[1..]), symbol, before);
    }
  }

  /** Over every stream of a new backtest: no position exceeds the limit, the tally is the books' tapes, and
      every listed symbol's position and profit are what its tape and its last tick make of them. */
  lemma BacktestSettles(symbols: set<string>, limits: Risk.RiskLimits, inputs: seq<Input>, symbol: string)
    requires limits.enabled && PossibleStream(Start(symbols, limits), inputs) && symbol in symbols
    ensures var st := AdvanceAll(Start(symbols, limits), inputs);
            && symbol in st.sim.books && Settles(st.sim, symbol, LastTickOf(inputs, symbol, None)) && Tallied(st)
            && (limits.maxPosition >= 0 && limits.maxOrderQty >= 0 ==> Abs(NetOf(st, symbol)) <= limits.maxPosition)
  {
    hide AdvanceAll, PossibleStream, AllRequests, ServeAll, FreshIds, Settles, Tallied, Orderly;
    var start := Start(symbols, limits);
    StreamServes(start, inputs, {}, symbol, None);
    ProfitIsTape(symbols, limits, AllRequests(start, inputs), symbol);
    if limits.maxPosition >= 0 && limits.maxOrderQty >= 0 {
      PositionStaysWithinLimit(symbols, limits, AllRequests(start, inputs), symbol);
    }
    StartIsOrderly(symbols, limits);
    AllTallied(start, inputs);
  }

  lemma {:induction false} SignalsDoNotTick(inputs: seq<Input>, last: Input, symbol: string, before: Option<Price>)
    requires last.SignalInput?
    ensures LastTickOf(inputs + [last], symbol, before) == LastTickOf(inputs, symbol, before)
    decreases |inputs|
  {
    if inputs == [] {
      assert [] + [last] == [last] && [last][1..] == [];
    } else {
      var all := inputs + [last];
      assert all[0] == inputs[0] && all[1..] == inputs[1..] + [last];
      SignalsDoNotTick(inputs[1..], last, symbol, InputTick(inputs[0], symbol, before));
    }
  }

  lemma StartIsOrderly(symbols: set<string>, limits: Risk.RiskLimits)
    requires limits.enabled
    ensures Orderly(Start(symbols, limits)) && Tallied(Start(symbols, limits))
  {
  }
}
