/**
 The backtester's order tracking: it keeps, next to the books, its own map of live orders, and
 CANCEL_ALL can only cancel what that map still holds.
 */
module Backtest {
  import opened Types
  import opened FlatBook
  import opened BookInvariants
  import opened Lifecycle
  import Risk
  import opened Simulator

  datatype SignalAction = NoAction | BuyAction | SellAction | CancelAction | CancelAllAction

  datatype Signal = Signal(action: SignalAction, symbol: string, typ: OrderType, price: Price, qty: Quantity,
                           cancelId: OrderId)

  datatype LiveOrder = LiveOrder(symbol: string, order: OrderRec)

  datatype Tally = Tally(submitted: nat, rejected: nat, filled: nat, trades: seq<Trade>)

  datatype State = State(sim: Sim, nextOid: OrderId, live: map<OrderId, LiveOrder>, tally: Tally)

  /** The tick's symbol and price, and the two clock readings of a submission during it. */
  datatype Moment = Moment(symbol: string, lastPrice: Price, windowNow: int, stampNow: int)

  function CancelIn(books: map<string, Book>, symbol: string, id: OrderId): map<string, Book> {
    if symbol in books then books[symbol := Cancel(books[symbol], id).0] else books
  }

  /** Cancel the listed live orders one after the other, each in its own symbol's book. */
  function CancelEach(books: map<string, Book>, live: map<OrderId, LiveOrder>, ids: seq<OrderId>): map<string, Book>
    requires forall i :: 0 <= i < |ids| ==> ids[i] in live
  {
    if ids == [] then books else CancelEach(CancelIn(books, live[ids[0]].symbol, ids[0]), live, ids[1..])
  }

  function OrderOf(sig: Signal, id: OrderId): OrderRec {
    OrderRec(id, if sig.action.BuyAction? then Buy else Sell, sig.typ, sig.price, sig.qty, 0, Pending)
  }

  /** A hash-map walk visits every live order (and only those). */
  predicate WalksLive(st: State, ids: seq<OrderId>) {
    && (set id | id in ids) == st.live.Keys
    && forall i :: 0 <= i < |ids| ==> ids[i] in st.live
  }

  /** One signal. `ids` is the order in which CANCEL_ALL happens to walk the hash map of live orders.
      A submitted order counts as live whenever it was accepted: the caller's copy never changes. */
  function Process(st: State, sig: Signal, now: Moment, ids: seq<OrderId>): State
    requires sig.action.CancelAllAction? ==> WalksLive(st, ids)
  {
    match sig.action
    case NoAction => st
    case CancelAction =>
      st.(sim := st.sim.(books := CancelIn(st.sim.books, now.symbol, sig.cancelId)), live := st.live - {sig.cancelId})
    case CancelAllAction =>
      st.(sim := st.sim.(books := CancelEach(st.sim.books, st.live, ids)), live := map[])
    case _ =>
      var id := st.nextOid + 1;
      var symbol := if sig.symbol == "" then now.symbol else sig.symbol;
      var o := OrderOf(sig, id);
      var (sim, res) := Submit(st.sim, symbol, o, Risk.FromPrice(now.lastPrice), now.windowNow, now.stampNow);
      var tally := st.tally.(submitted := st.tally.submitted + 1);
      if res.Accepted? then
        State(sim, id, st.live[id := LiveOrder(symbol, o)],
              tally.(filled := tally.filled + |res.trades|, trades := tally.trades + res.trades))
      else
        State(sim, id, st.live, tally.(rejected := tally.rejected + 1))
  }

  // ---------------------------------------------------------------- what the live map covers

  /** Every resting order is in the live map, under the symbol of the book it rests in. */
  ghost predicate Covered(books: map<string, Book>, live: map<OrderId, LiveOrder>) {
    forall s, id :: s in books && id in Ids(books[s].resting) ==> id in live && live[id].symbol == s
  }

  ghost predicate RestsElsewhere(books: map<string, Book>, id: OrderId, symbol: string) {
    exists s :: s in books && s != symbol && id in Ids(books[s].resting)
  }

  /** The books are well formed and know only ids handed out; the tally is in step with the counters. */
  ghost predicate Orderly(st: State) {
    && (forall s :: s in st.sim.books ==> WellFormed(st.sim.books[s]))
    && (forall s, id :: s in st.sim.books && id in Known(st.sim.books[s]) ==> id <= st.nextOid)
    && st.sim.risk.limits.enabled
    && st.tally.submitted == st.sim.totalOrders && st.tally.rejected == st.sim.totalRejects
    && st.tally.filled == |st.tally.trades| == st.sim.totalTrades
  }

  ghost predicate Sound(st: State) {
    Orderly(st) && Covered(st.sim.books, st.live)
  }

  lemma CancelLeaves(b: Book, id: OrderId)
    requires WellFormed(b)
    ensures Ids(Cancel(b, id).0.resting) == Ids(b.resting) - {id}
  {
  }

  /** A CANCEL signal is looked up in the tick's book only, but always dropped from the live map: the
      map goes on covering the books exactly when the order does not rest in another book. */
  lemma CancelKeepsCoverIff(st: State, sig: Signal, now: Moment, ids: seq<OrderId>)
    requires Sound(st) && sig.action.CancelAction?
    ensures var st' := Process(st, sig, now, ids);
            Covered(st'.sim.books, st'.live) <==> !RestsElsewhere(st.sim.books, sig.cancelId, now.symbol)
  {
    hide WellFormed, Known, Ids, Cancel;
    if now.symbol in st.sim.books {
      CancelLeaves(st.sim.books[now.symbol], sig.cancelId);
    }
    if RestsElsewhere(st.sim.books, sig.cancelId, now.symbol) {
      var st' := Process(st, sig, now, ids);
      var s :| s in st.sim.books && s != now.symbol && sig.cancelId in Ids(st.sim.books[s].resting);
      assert sig.cancelId in Ids(st'.sim.books[s].resting) && sig.cancelId !in st'.live;
    }
  }

  /** Some id on the list is the order's, with the live map placing it in this symbol's book. */
  ghost predicate Reached(live: map<OrderId, LiveOrder>, ids: seq<OrderId>, s: string, id: OrderId)
    requires forall i :: 0 <= i < |ids| ==> ids[i] in live
  {
    exists k :: 0 <= k < |ids| && ids[k] == id && live[ids[k]].symbol == s
  }

  /** After cancelling a list of live orders, exactly the orders the list does not reach still rest. */
  lemma {:induction false} CancelEachLeaves(books: map<string, Book>, live: map<OrderId, LiveOrder>, ids: seq<OrderId>)
    requires forall i :: 0 <= i < |ids| ==> ids[i] in live
    requires forall s :: s in books ==> WellFormed(books[s])
    ensures var books' := CancelEach(books, live, ids);
            && books'.Keys == books.Keys
            && forall s :: s in books ==>
                 && WellFormed(books'[s]) && Known(books'[s]) == Known(books[s])
                 && forall id :: id in Ids(books'[s].resting) <==>
                      id in Ids(books[s].resting) && !Reached(live, ids, s, id)
    decreases |ids|
  {
    hide WellFormed, Known, Cancel, Ids;
    if ids != [] {
      var s0, rest := live[ids[0]].symbol, ids[1..];
      var books1 := CancelIn(books, s0, ids[0]);
      if s0 in books {
        CancelLeaves(books[s0], ids[0]);
        CancelKnows(books[s0], ids[0]);
        CancelKeepsWellFormed(books[s0], ids[0]);
      }
      CancelEachLeaves(books1, live, rest);
      forall s, id
        ensures Reached(live, ids, s, id) <==> (s == s0 && id == ids[0]) || Reached(live, rest, s, id)
      {
        ReachedSplit(live, ids, s, id);
      }
    }
  }

  lemma ReachedSplit(live: map<OrderId, LiveOrder>, ids: seq<OrderId>, s: string, id: OrderId)
    requires ids != [] && forall i :: 0 <= i < |ids| ==> ids[i] in live
    ensures Reached(live, ids, s, id) <==> (s == live[ids[0]].symbol && id == ids[0]) || Reached(live, ids[1..], s, id)
  {
  }

  /** CANCEL_ALL, in whatever order the map is walked, leaves every book empty exactly when the live map
      covered the books. */
  lemma CancelAllClearsIffCovered(st: State, sig: Signal, now: Moment, ids: seq<OrderId>)
    requires forall s :: s in st.sim.books ==> WellFormed(st.sim.books[s])
    requires sig.action.CancelAllAction? && WalksLive(st, ids)
    ensures var books' := Process(st, sig, now, ids).sim.books;
            (forall s :: s in books' ==> books'[s].resting == []) <==> Covered(st.sim.books, st.live)
  {
    hide WellFormed, Known, Cancel, Submit, Ids;
    var books, books' := st.sim.books, Process(st, sig, now, ids).sim.books;
    CancelEachLeaves(books, st.live, ids);
    forall s, id
      ensures Reached(st.live, ids, s, id) <==> id in st.live && st.live[id].symbol == s
    {
      WalkReaches(st, ids, s, id);
    }
    forall s | s in books'
      ensures books'[s].resting == [] <==> Ids(books'[s].resting) == {}
    {
      EmptyIffNoIds(books'[s].resting);
    }
  }

  lemma WalkReaches(st: State, ids: seq<OrderId>, s: string, id: OrderId)
    requires WalksLive(st, ids)
    ensures Reached(st.live, ids, s, id) <==> id in st.live && st.live[id].symbol == s
  {
  }

  lemma EmptyIffNoIds(rs: seq<OrderRec>)
    ensures rs == [] <==> Ids(rs) == {}
  {
    if rs != [] {
      assert rs[0].id in Ids(rs);
    }
  }

  lemma FillRestingIds(b: Book, taker: OrderRec)
    requires CanFill(b, taker)
    ensures Ids(FillBest(b, taker).book.resting) <= Ids(b.resting)
  {
  }

  lemma {:induction false} SweepRestingIds(b: Book, taker: OrderRec)
    ensures Ids(Sweep(b, taker).book.resting) <= Ids(b.resting)
    decreases |b.resting|, taker.Remaining()
  {
    hide Ids, CanFill, FillBest;
    if CanFill(b, taker) {
      FillRestingIds(b, taker);
      FillShrinks(b, taker);
      SweepRestingIds(FillBest(b, taker).book, FillBest(b, taker).order);
    }
  }

  /** Adding an order lets no order rest that did not rest before, except itself. */
  lemma AddRestingIds(b: Book, order: OrderRec)
    requires WellFormed(b) && Incoming(b, order)
    ensures Ids(Add(b, order).book.resting) <= Ids(b.resting) + {order.id}
  {
    hide Sweep, EligibleQty, WellFormed;
    var o := order.(status := New);
    var b1 := Notify(b, o);
    NotifyKeepsWellFormed(b, o);
    SweepRestingIds(b1, o);
    SweepKeepsWellFormed(b1, o);
  }

  /** Adding an order with a fresh id to a book whose ids are all smaller. */
  lemma AddFresh(b: Book, o: OrderRec, last: OrderId)
    requires WellFormed(b) && o.qty > 0 && o.filled == 0 && o.id == last + 1
    requires forall id :: id in Known(b) ==> id <= last
    ensures var b' := Add(b, o).book;
            && WellFormed(b') && Known(b') == Known(b) + {o.id}
            && Ids(b'.resting) <= Ids(b.resting) + {o.id} && Ids(b.resting) <= Known(b)
  {
    hide Add, WellFormed;
    assert o.id !in Known(b);
    forall i | 0 <= i < |b.resting|
      ensures b.resting[i].id != o.id
    {
      assert b.resting[i] in b.resting;
    }
    AddKeepsWellFormed(b, o);
    AddKnows(b, o);
    AddRestingIds(b, o);
  }

  lemma CheckMeans(st: Risk.RiskState, symbol: string, o: OrderRec, currentPrice: real, windowNow: int, stampNow: int)
    requires st.limits.enabled
    ensures var (st', v) := Risk.Check(st, symbol, o, currentPrice, windowNow, stampNow);
            st'.limits == st.limits && (v == Risk.Approved ==> o.qty > 0)
  {
  }

  lemma SubmitKeepsOrderly(st: State, sig: Signal, now: Moment, ids: seq<OrderId>)
    requires Orderly(st) && (sig.action.BuyAction? || sig.action.SellAction?)
    ensures Orderly(Process(st, sig, now, ids))
  {
    hide WellFormed, Known, Add, ReportAll, Incoming, Ids, Risk.Check;
    var symbol := if sig.symbol == "" then now.symbol else sig.symbol;
    var o, px := OrderOf(sig, st.nextOid + 1), Risk.FromPrice(now.lastPrice);
    CheckMeans(st.sim.risk, symbol, o, px, now.windowNow, now.stampNow);
    var (risk, verdict) := Risk.Check(st.sim.risk, symbol, o, px, now.windowNow, now.stampNow);
    if verdict == Risk.Approved && symbol in st.sim.books {
      AddFresh(st.sim.books[symbol], o, st.nextOid);
      ReportsKeepLimits(risk, o, Add(st.sim.books[symbol], o).trades);
    }
  }

  lemma SubmitKeepsSound(st: State, sig: Signal, now: Moment, ids: seq<OrderId>)
    requires Sound(st) && (sig.action.BuyAction? || sig.action.SellAction?)
    ensures Sound(Process(st, sig, now, ids))
  {
    hide WellFormed, Known, Add, ReportAll, Incoming, Ids, Risk.Check;
    var symbol := if sig.symbol == "" then now.symbol else sig.symbol;
    var o, px := OrderOf(sig, st.nextOid + 1), Risk.FromPrice(now.lastPrice);
    SubmitKeepsOrderly(st, sig, now, ids);
    CheckMeans(st.sim.risk, symbol, o, px, now.windowNow, now.stampNow);
    var (risk, verdict) := Risk.Check(st.sim.risk, symbol, o, px, now.windowNow, now.stampNow);
    forall s | s in st.sim.books
      ensures Ids(st.sim.books[s].resting) <= Known(st.sim.books[s])
    {
      RestingIsKnown(st.sim.books[s]);
    }
    if verdict == Risk.Approved && symbol in st.sim.books {
      AddFresh(st.sim.books[symbol], o, st.nextOid);
    }
  }

  lemma RestingIsKnown(b: Book)
    ensures Ids(b.resting) <= Known(b)
  {
  }

  // ---------------------------------------------------------------- whole signal streams

  /** A market tick, or one signal with its moment and how the hash map would be walked then. */
  datatype Input = TickInput(now: Moment) | SignalInput(sig: Signal, now: Moment, walk: seq<OrderId>)

  predicate Possible(st: State, input: Input) {
    input.SignalInput? && input.sig.action.CancelAllAction? ==> WalksLive(st, input.walk)
  }

  function Advance(st: State, input: Input): State
    requires Possible(st, input)
  {
    match input
    case TickInput(now) =>
      st.(sim := st.sim.(risk := Risk.OnPrice(st.sim.risk, now.symbol, Risk.FromPrice(now.lastPrice))))
    case SignalInput(sig, now, walk) => Process(st, sig, now, walk)
  }

  predicate PossibleStream(st: State, inputs: seq<Input>)
    decreases |inputs|
  {
    inputs != [] ==> Possible(st, inputs[0]) && PossibleStream(Advance(st, inputs[0]), inputs[1..])
  }

  function AdvanceAll(st: State, inputs: seq<Input>): State
    requires PossibleStream(st, inputs)
    decreases |inputs|
  {
    if inputs == [] then st else AdvanceAll(Advance(st, inputs[0]), inputs[1..])
  }

  lemma {:induction false} AdvanceOneMore(st: State, inputs: seq<Input>, last: Input)
    requires PossibleStream(st, inputs) && Possible(AdvanceAll(st, inputs), last)
    ensures PossibleStream(st, inputs + [last])
    ensures AdvanceAll(st, inputs + [last]) == Advance(AdvanceAll(st, inputs), last)
    decreases |inputs|
  {
    hide Advance, Possible;
    var all := inputs + [last];
    if inputs == [] {
      assert all == [last] && all[1..] == [];
    } else {
      assert all[0] == inputs[0] && all[1..] == inputs[1..] + [last];
      AdvanceOneMore(Advance(st, inputs[0]), inputs[1..], last);
    }
  }

  lemma {:induction false} AdvanceJoin(st: State, a: seq<Input>, c: seq<Input>)
    requires PossibleStream(st, a) && PossibleStream(AdvanceAll(st, a), c)
    ensures PossibleStream(st, a + c) && AdvanceAll(st, a + c) == AdvanceAll(AdvanceAll(st, a), c)
    decreases |a|
  {
    hide Advance, Possible;
    if a == [] {
      assert a + c == c;
    } else {
      assert (a + c)[0] == a[0] && (a + c)[1..] == a[1..] + c;
      AdvanceJoin(Advance(st, a[0]), a[1..], c);
    }
  }

  /** A CANCEL signal names no order that rests in another symbol's book. */
  ghost predicate CancelIsLocal(st: State, input: Input) {
    input.SignalInput? && input.sig.action.CancelAction? ==>
      !RestsElsewhere(st.sim.books, input.sig.cancelId, input.now.symbol)
  }

  ghost predicate CancelsAreLocal(st: State, inputs: seq<Input>)
    requires PossibleStream(st, inputs)
    decreases |inputs|
  {
    inputs != [] ==> CancelIsLocal(st, inputs[0]) && CancelsAreLocal(Advance(st, inputs[0]), inputs[1..])
  }

  lemma AdvanceKeepsOrderly(st: State, input: Input)
    requires Orderly(st) && Possible(st, input)
    ensures Orderly(Advance(st, input))
  {
    hide WellFormed, Known, Submit, Cancel;
    match input
    case TickInput(now) =>
    case SignalInput(sig, now, walk) =>
      match sig.action {
        case NoAction =>
        case BuyAction => SubmitKeepsOrderly(st, sig, now, walk);
        case SellAction => SubmitKeepsOrderly(st, sig, now, walk);
        case CancelAction =>
          if now.symbol in st.sim.books {
            CancelKeepsWellFormed(st.sim.books[now.symbol], sig.cancelId);
            CancelKnows(st.sim.books[now.symbol], sig.cancelId);
          }
        case CancelAllAction => CancelEachLeaves(st.sim.books, st.live, walk);
      }
  }

  lemma AdvanceKeepsSound(st: State, input: Input)
    requires Sound(st) && Possible(st, input) && CancelIsLocal(st, input)
    ensures Sound(Advance(st, input))
  {
    hide Orderly, Submit, CancelIn, CancelEach;
    AdvanceKeepsOrderly(st, input);
    match input
    case TickInput(now) =>
    case SignalInput(sig, now, walk) =>
      match sig.action {
        case NoAction =>
        case BuyAction => SubmitKeepsSound(st, sig, now, walk);
        case SellAction => SubmitKeepsSound(st, sig, now, walk);
        case CancelAction => CancelKeepsCoverIff(st, sig, now, walk);
        case CancelAllAction =>
          BooksAreWellFormed(st);
          CancelAllClearsIffCovered(st, sig, now, walk);
          EmptyIsCovered(Advance(st, input));
      }
  }

  lemma BooksAreWellFormed(st: State)
    requires Orderly(st)
    ensures forall s :: s in st.sim.books ==> WellFormed(st.sim.books[s])
  {
  }

  lemma EmptyIsCovered(st: State)
    requires forall s :: s in st.sim.books ==> st.sim.books[s].resting == []
    ensures Covered(st.sim.books, st.live)
  {
  }

  lemma {:induction false} AdvanceAllKeepsOrderly(st: State, inputs: seq<Input>)
    requires Orderly(st) && PossibleStream(st, inputs)
    ensures Orderly(AdvanceAll(st, inputs))
    decreases |inputs|
  {
    hide Orderly, Advance, Possible;
    if inputs != [] {
      AdvanceKeepsOrderly(st, inputs[0]);
      AdvanceAllKeepsOrderly(Advance(st, inputs[0]), inputs[1..]);
    }
  }

  lemma {:induction false} AdvanceAllKeepsSound(st: State, inputs: seq<Input>)
    requires Sound(st) && PossibleStream(st, inputs) && CancelsAreLocal(st, inputs)
    ensures Sound(AdvanceAll(st, inputs))
    decreases |inputs|
  {
    hide Sound, Advance, Possible, CancelIsLocal;
    if inputs != [] {
      AdvanceKeepsSound(st, inputs[0]);
      AdvanceAllKeepsSound(Advance(st, inputs[0]), inputs[1..]);
    }
  }

  /** The map covers the books now and after every input to come. */
  ghost predicate CoveredThroughout(st: State, inputs: seq<Input>)
    requires PossibleStream(st, inputs)
    decreases |inputs|
  {
    && Covered(st.sim.books, st.live)
    && (inputs != [] ==> CoveredThroughout(Advance(st, inputs[0]), inputs[1..]))
  }

  lemma AdvanceCoversIff(st: State, input: Input)
    requires Sound(st) && Possible(st, input)
    ensures var st' := Advance(st, input); Covered(st'.sim.books, st'.live) <==> CancelIsLocal(st, input)
  {
    hide WellFormed, Known, Submit, Cancel, RestsElsewhere;
    if CancelIsLocal(st, input) {
      AdvanceKeepsSound(st, input);
    } else {
      CancelKeepsCoverIff(st, input.sig, input.now, input.walk);
    }
  }

  /** Over every stream: the map covers the books throughout if and only if every CANCEL is local. */
  lemma {:induction false} CoveredThroughoutIff(st: State, inputs: seq<Input>)
    requires Sound(st) && PossibleStream(st, inputs)
    ensures CoveredThroughout(st, inputs) <==> CancelsAreLocal(st, inputs)
    decreases |inputs|
  {
    hide Advance, Possible, CancelIsLocal, Covered;
    SoundCovers(st);
    if inputs != [] {
      var st' := Advance(st, inputs[0]);
      AdvanceCoversIff(st, inputs[0]);
      if CancelIsLocal(st, inputs[0]) {
        AdvanceKeepsSound(st, inputs[0]);
        CoveredThroughoutIff(st', inputs[1..]);
      } else {
        NotCoveredNow(st', inputs[1..]);
      }
    }
  }

  lemma SoundCovers(st: State)
    requires Sound(st)
    ensures Covered(st.sim.books, st.live)
  {
  }

  lemma NotCoveredNow(st: State, inputs: seq<Input>)
    requires PossibleStream(st, inputs) && !Covered(st.sim.books, st.live)
    ensures !CoveredThroughout(st, inputs)
  {
  }

  /** A backtest starts with an empty book for each of its symbols and the id counter at 1000. */
  function Start(symbols: set<string>, limits: Risk.RiskLimits): State {
    State(NewSim(symbols, limits), 1000, map[], Tally(0, 0, 0, []))
  }

  /** If CANCEL signals name no order resting in another symbol's book, then after any stream of ticks
      and signals the live map covers the books, so a CANCEL_ALL at that point leaves every book empty. */
  lemma CancelAllClearsTheBacktest(symbols: set<string>, limits: Risk.RiskLimits, inputs: seq<Input>, sig: Signal,
                                   now: Moment, walk: seq<OrderId>)
    requires limits.enabled && sig.action.CancelAllAction?
    requires var start := Start(symbols, limits);
             PossibleStream(start, inputs) && CancelsAreLocal(start, inputs)
               && WalksLive(AdvanceAll(start, inputs), walk)
    ensures var st := AdvanceAll(Start(symbols, limits), inputs);
            && Sound(st)
            && var books' := Process(st, sig, now, walk).sim.books; forall s :: s in books' ==> books'[s].resting == []
  {
    hide AdvanceAll, Process;
    AdvanceAllKeepsSound(Start(symbols, limits), inputs);
    CancelAllClearsIffCovered(AdvanceAll(Start(symbols, limits), inputs), sig, now, walk);
  }

  // ---------------------------------------------------------------- an order that is missed

  function BuyElsewhere(symbol: string): Signal {
    Signal(BuyAction, symbol, Limit, 1, 1, 0)
  }

  function CancelSignal(id: OrderId): Signal {
    Signal(CancelAction, "", Limit, 0, 0, id)
  }

  function CancelAllSignal(): Signal {
    Signal(CancelAllAction, "", Limit, 0, 0, 0)
  }

  lemma FirstRests(symbol: string, o: OrderRec)
    requires o.typ.Limit? && o.qty > 0 && o.filled == 0
    ensures var r := Add(Empty(symbol), o); r.trades == [] && r.book.resting == [o.(status := New)]
  {
  }

  /** A signal for B on a tick of A is accepted and rests in B's book, under id 1001. */
  lemma BuyRestsElsewhere(limits: Risk.RiskLimits, now: Moment)
    requires limits.enabled && limits.maxOrderQty >= 1 && limits.maxPosition >= 1
    requires limits.maxOrdersPerSec >= 1 && now.lastPrice >= 1 && limits.maxNotional >= Risk.FromPrice(now.lastPrice)
    ensures var st := Process(Start({"A", "B"}, limits), BuyElsewhere("B"), now, []);
            && st.sim.books.Keys == {"A", "B"} && st.live.Keys == {1001}
            && st.sim.books["A"].resting == []
                 && st.sim.books["B"].resting == [OrderRec(1001, Buy, Limit, 1, 1, 0, New)]
  {
    hide Add;
    var start := Start({"A", "B"}, limits);
    var o := OrderOf(BuyElsewhere("B"), 1001);
    assert Risk.EarlyVerdict(start.sim.risk, "B", o, Risk.FromPrice(now.lastPrice)) == Risk.Approved;
    FirstRests("B", o);
  }

  /** The CANCEL is looked up in A's book, where it finds nothing, and dropped from the map. */
  lemma CancelMisses(st: State, now: Moment)
    requires st.sim.books.Keys == {"A", "B"} && st.live.Keys == {1001} && st.sim.books["A"].resting == []
               && now.symbol == "A"
    ensures var st' := Process(st, CancelSignal(1001), now, []); st'.sim.books == st.sim.books && st'.live == map[]
  {
  }

  lemma CancelAllMisses(st: State, now: Moment)
    requires st.live == map[]
    ensures WalksLive(st, []) && Process(st, CancelAllSignal(), now, []).sim.books == st.sim.books
  {
  }

  /** A run after which CANCEL_ALL has missed an order: buy in B on a tick of A, cancel it on a tick of A,
      cancel all. The buy still rests in B's book. */
  lemma CancelAllCanMiss(limits: Risk.RiskLimits, now: Moment)
    requires limits.enabled && limits.maxOrderQty >= 1 && limits.maxPosition >= 1
    requires limits.maxOrdersPerSec >= 1 && now.lastPrice >= 1 && limits.maxNotional >= Risk.FromPrice(now.lastPrice)
    requires now.symbol == "A"
    ensures var inputs := [SignalInput(BuyElsewhere("B"), now, []), SignalInput(CancelSignal(1001), now, []),
                           SignalInput(CancelAllSignal(), now, [])];
            var start := Start({"A", "B"}, limits);
            && PossibleStream(start, inputs) && "B" in AdvanceAll(start, inputs).sim.books
            && AdvanceAll(start, inputs).sim.books["B"].resting == [OrderRec(1001, Buy, Limit, 1, 1, 0, New)]
  {
    hide Process, WalksLive, Start;
    var start := Start({"A", "B"}, limits);
    var st1 := Process(start, BuyElsewhere("B"), now, []);
    var st2 := Process(st1, CancelSignal(1001), now, []);
    BuyRestsElsewhere(limits, now);
    CancelMisses(st1, now);
    CancelAllMisses(st2, now);
    var i1, i2, i3 := SignalInput(BuyElsewhere("B"), now, []), SignalInput(CancelSignal(1001), now, []),
      SignalInput(CancelAllSignal(), now, []);
    assert [i1, i2, i3][1..] == [i2, i3] && [i2, i3][1..] == [i3] && [i3][1..] == [];
    var st3 := Advance(st2, i3);
    assert PossibleStream(st2, [i3]) && AdvanceAll(st2, [i3]) == st3;
    assert PossibleStream(st1, [i2, i3]) && AdvanceAll(st1, [i2, i3]) == st3;
  }
}
