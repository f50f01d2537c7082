/**
 The exchange simulator: one order book per symbol behind one lock, the risk manager in front. What a
 submission does from start to end is also one particular run of the submit protocol.
 */
module Simulator {
  import opened Types
  import opened FlatBook
  import opened Lifecycle
  import opened Matching
  import opened PriceLevels
  import opened OrderBooks
  import Risk
  import Protocol = SubmitProtocol

  datatype Sim = Sim(books: map<string, Book>, risk: Risk.RiskState, totalOrders: nat, totalTrades: nat,
                     totalRejects: nat)

  datatype SubmitResult =
    | RiskRejected(verdict: Risk.Verdict)
    | UnknownSymbol
    | Accepted(trades: seq<Trade>)

  /** Every trade of a submission is reported to the risk manager, on the incoming side only. */
  function ReportAll(risk: Risk.RiskState, order: OrderRec, trades: seq<Trade>): Risk.RiskState
    decreases |trades|
  {
    if trades == [] then risk
    else
      var t := trades[0];
      ReportAll(Risk.OnFill(risk, t.symbol, Protocol.FillSide(t, order), t.qty, Risk.FromPrice(t.price)), order,
        trades[1..])
  }

  function Submit(st: Sim, symbol: string, order: OrderRec, currentPrice: real, windowNow: int, stampNow: int)
    : (Sim, SubmitResult)
  {
    var (risk, verdict) := Risk.Check(st.risk, symbol, order, currentPrice, windowNow, stampNow);
    var st1 := st.(totalOrders := st.totalOrders + 1, risk := risk);
    if verdict != Risk.Approved then (st1.(totalRejects := st.totalRejects + 1), RiskRejected(verdict))
    else if symbol !in st.books then (st1.(totalRejects := st.totalRejects + 1), UnknownSymbol)
    else
      var r := Add(st.books[symbol], order);
      (st1.(books := st.books[symbol := r.book], risk := ReportAll(risk, order, r.trades),
            totalTrades := st.totalTrades + |r.trades|),
       Accepted(r.trades))
  }

  lemma ReportsKeepLimits(risk: Risk.RiskState, o: OrderRec, trades: seq<Trade>)
    ensures ReportAll(risk, o, trades).limits == risk.limits
    decreases |trades|
  {
  }

  function NewSim(symbols: set<string>, limits: Risk.RiskLimits): Sim {
    Sim(map s | s in symbols :: Empty(s), Risk.Fresh(limits), 0, 0, 0)
  }

  lemma SymbolsGrow(symbols: seq<string>, symbol: string, limits: Risk.RiskLimits)
    ensures var st, st' := NewSim((set s | s in symbols), limits), NewSim((set s | s in symbols + [symbol]), limits);
            st' == st.(books := if symbol in st.books then st.books else st.books[symbol := Empty(symbol)])
  {
  }

  lemma NothingKnown(symbol: string)
    ensures Known(Empty(symbol)) == {} && Empty(symbol).symbol == symbol
  {
  }

  // ---------------------------------------------------------------- the simulator object

  class ExchangeSimulator {
    var books: map<string, OrderBook>
    const risk: Risk.RiskManager
    var store: map<OrderId, Order>
    var totalOrders: nat
    var totalTrades: nat
    var totalRejects: nat
    var nextOid: OrderId

    /** Which symbol's book owns each book and order object, and what each book stands for. */
    ghost var owner: map<object, string>
    ghost var views: map<string, Book>

    ghost predicate Holds(s: string)
      requires s in books && s in views
      reads this`books, this`views, this`owner, this`store, owner.Keys
    {
      && books[s] in owner && (forall o :: o in books[s].Repr() ==> o in owner && owner[o] == s)
      && books[s].Valid()
      && books[s].view == views[s] && views[s].symbol == s && Known(views[s]) <= store.Keys
    }

    ghost predicate Valid()
      reads this`books, this`views, this`owner, this`store, owner.Keys
    {
      && this !in owner && risk !in owner && books.Keys == views.Keys
      && (forall s :: s in books ==> Holds(s))
    }

    ghost function View(): Sim
      reads this, risk
    {
      Sim(views, risk.View(), totalOrders, totalTrades, totalRejects)
    }

    constructor (limits: Risk.RiskLimits)
      ensures Valid() && View() == Sim(map[], Risk.Fresh(limits), 0, 0, 0)
      ensures store == map[] && nextOid == 1000 && owner == map[] && fresh(risk)
    {
      books, store, owner, views := map[], map[], map[], map[];
      risk := new Risk.RiskManager(limits);
      totalOrders, totalTrades, totalRejects, nextOid := 0, 0, 0, 1000;
    }

    method NextOrderId() returns (id: OrderId)
      modifies this`nextOid
      ensures id == nextOid == old(nextOid) + 1
    {
      nextOid := nextOid + 1;
      id := nextOid;
    }

    /** A book whose objects nobody touched still holds. */
    twostate lemma Untouched(s: string)
      requires old(s in books && s in views && Holds(s)) && s in books && s in views
      requires books[s] == old(books[s]) && views[s] == old(views[s]) && old(store.Keys) <= store.Keys
      requires forall o :: o in old(owner) && old(owner[o]) == s ==> o in owner && owner[o] == s && unchanged(o)
      ensures Holds(s)
    {
    }

    method AddSymbol(symbol: string)
      requires Valid()
      modifies this`books, this`owner, this`views
      ensures Valid() && old(owner.Keys) <= owner.Keys && fresh(owner.Keys - old(owner.Keys))
      ensures views == if symbol in old(views) then old(views) else old(views)[symbol := Empty(symbol)]
      ensures View() == old(View()).(books := views)
    {
      hide OrderBook.Valid, OrderBook.Repr, Known, Empty, Holds;
      if symbol in books {
        return;
      }
      NothingKnown(symbol);
      var book := new OrderBook(symbol);
      owner := owner[book := symbol];
      books := books[symbol := book];
      views := views[symbol := Empty(symbol)];
      forall s | s in books
        ensures Holds(s)
      {
        if s != symbol {
          Untouched(s);
        } else {
          assert Holds(s) by { Established(s); }
        }
      }
    }

    lemma Established(s: string)
      requires s in books && s in views && books[s].Valid() && books[s].view == views[s] && views[s].symbol == s
      requires Known(views[s]) <= store.Keys && books[s] in owner
      requires forall o :: o in books[s].Repr() ==> o in owner && owner[o] == s
      ensures Holds(s)
    {
    }

    /** What adding a fresh order to one of the books needs, and what it will do to that book. */
    lemma ReadyToAdd(s: string, o: OrderRec)
      requires Valid() && s in books && o.id !in store && o.qty > 0 && o.filled == 0
      ensures books[s].Valid() && Incoming(books[s].view, o) && books[s].view == views[s]
      ensures books[s] in owner && forall x :: x in books[s].Repr() ==> x in owner && owner[x] == s
      ensures var r := Add(views[s], o); r.book.symbol == s && Known(r.book) <= store.Keys + {o.id}
    {
      assert Holds(s);
      var b := books[s].view;
      forall i | 0 <= i < |b.resting|
        ensures b.resting[i].id != o.id
      {
        assert b.resting[i] in b.resting;
      }
      AddKnows(b, o);
      AddTradesTaken(b, o);
    }

    /** Clone the order into the store, so that the book keeps a stable object, and match it. */
    method MatchOrder(symbol: string, o: OrderRec) returns (trades: seq<Trade>)
      requires Valid() && symbol in books && o.id !in store && o.qty > 0 && o.filled == 0
      modifies this`store, this`owner, this`views, owner.Keys
      ensures Valid() && store.Keys == old(store.Keys) + {o.id}
      ensures old(owner.Keys) <= owner.Keys && fresh(owner.Keys - old(owner.Keys))
      ensures var r := Add(old(views[symbol]), o); trades == r.trades && views == old(views)[symbol := r.book]
    {
      hide OrderBook.Valid, OrderBook.Repr, Known, Holds, Incoming, WellFormed, Add;
      ReadyToAdd(symbol, o);
      var order := new Order(o);
      store := store[o.id := order];
      var book := books[symbol];
      trades := book.AddOrder(order);
      owner := owner[order := symbol];
      views := views[symbol := book.view];
      forall s | s in books
        ensures Holds(s)
      {
        if s != symbol {
          Untouched(s);
        } else {
          Established(s);
        }
      }
    }

    method ReportFills(o: OrderRec, trades: seq<Trade>)
      modifies risk
      ensures risk.View() == ReportAll(old(risk.View()), o, trades)
    {
      for i := 0 to |trades|
        invariant ReportAll(risk.View(), o, trades[i..]) == ReportAll(old(risk.View()), o, trades)
      {
        var t := trades[i];
        assert trades[i..][0] == t && trades[i..][1..] == trades[i + 1..];
        var side := if t.buyId == o.id then Buy else Sell;
        risk.OnFillEvent(t.symbol, side, t.qty, Risk.FromPrice(t.price));
      }
      assert trades[|trades|..] == [];
    }

    lemma ApprovedIsPositive(st: Risk.RiskState, symbol: string, o: OrderRec, currentPrice: real, windowNow: int,
                             stampNow: int)
      requires st.limits.enabled || o.qty > 0
      requires Risk.Check(st, symbol, o, currentPrice, windowNow, stampNow).1 == Risk.Approved
      ensures o.qty > 0
    {
    }

    lemma SameSymbols()
      requires Valid()
      ensures books.Keys == views.Keys && risk !in owner && this !in owner
    {
    }

    /** What happens under the simulator's lock: match, count the trades, report them. */
    method Execute(symbol: string, o: OrderRec) returns (trades: seq<Trade>)
      requires Valid() && symbol in books && o.id !in store && o.qty > 0 && o.filled == 0
      modifies this`store, this`owner, this`views, this`totalTrades, risk, owner.Keys
      ensures Valid() && store.Keys == old(store.Keys) + {o.id}
      ensures old(owner.Keys) <= owner.Keys && fresh(owner.Keys - old(owner.Keys))
      ensures var r := Add(old(views[symbol]), o); trades == r.trades && views == old(views)[symbol := r.book]
      ensures totalTrades == old(totalTrades) + |trades|
      ensures risk.View() == ReportAll(old(risk.View()), o, trades)
    {
      hide Valid, Holds, OrderBook.Valid, Add, ReportAll;
      SameSymbols();
      trades := MatchOrder(symbol, o);
      SameSymbols();
      totalTrades := totalTrades + |trades|;
      ReportFills(o, trades);
    }

    /** Risk is checked before the book is even looked up; every trade is reported afterwards. */
    method SubmitOrder(symbol: string, o: OrderRec, currentPrice: real, windowNow: int, stampNow: int)
      returns (result: SubmitResult)
      requires Valid()
      requires symbol in books
                 && Risk.Check(risk.View(), symbol, o, currentPrice, windowNow, stampNow).1 == Risk.Approved
               ==> o.id !in store && o.filled == 0 && (risk.limits.enabled || o.qty > 0)
      modifies this`store, this`owner, this`views, this`totalOrders, this`totalTrades, this`totalRejects, risk,
                 owner.Keys
      ensures Valid() && old(store.Keys) <= store.Keys <= old(store.Keys) + {o.id}
      ensures old(owner.Keys) <= owner.Keys && fresh(owner.Keys - old(owner.Keys))
      ensures (View(), result) == Submit(old(View()), symbol, o, currentPrice, windowNow, stampNow)
    {
      hide Valid, Holds, OrderBook.Valid, Risk.Check, Add, ReportAll;
      SameSymbols();
      totalOrders := totalOrders + 1;
      var verdict := risk.CheckOrder(symbol, o, currentPrice, windowNow, stampNow);
      if verdict != Risk.Approved {
        totalRejects := totalRejects + 1;
        return RiskRejected(verdict);
      }
      if symbol !in books {
        totalRejects := totalRejects + 1;
        return UnknownSymbol;
      }
      ApprovedIsPositive(old(risk.View()), symbol, o, currentPrice, windowNow, stampNow);
      var trades := Execute(symbol, o);
      return Accepted(trades);
    }

    lemma ReadyToChange(s: string)
      requires Valid() && s in books
      ensures books[s].Valid() && books[s].view == views[s] && views[s].symbol == s && Known(views[s]) <= store.Keys
      ensures books[s] in owner && forall x :: x in books[s].Repr() ==> x in owner && owner[x] == s
      ensures WellFormed(views[s])
    {
      assert Holds(s);
    }

    method CancelOrder(symbol: string, id: OrderId) returns (ok: bool)
      requires Valid()
      modifies this`views, owner.Keys
      ensures Valid()
      ensures symbol !in old(views) ==> !ok && views == old(views)
      ensures symbol in old(views) ==> ok == Cancel(old(views[symbol]), id).1
                                       && views == old(views)[symbol := Cancel(old(views[symbol]), id).0]
    {
      hide OrderBook.Valid, OrderBook.Repr, Known, Holds, WellFormed, Cancel;
      if symbol !in books {
        return false;
      }
      ReadyToChange(symbol);
      CancelKnows(views[symbol], id);
      CancelKeepsSymbol(views[symbol], id);
      var book := books[symbol];
      ok := book.CancelOrder(id);
      views := views[symbol := book.view];
      forall s | s in books
        ensures Holds(s)
      {
        if s != symbol {
          Untouched(s);
        } else {
          Established(s);
        }
      }
    }

    lemma CancelKeepsSymbol(b: Book, id: OrderId)
      ensures Cancel(b, id).0.symbol == b.symbol
    {
    }

    lemma ModifyKeepsSymbol(b: Book, id: OrderId, price: Price, qty: Quantity)
      ensures Modify(b, id, price, qty).0.symbol == b.symbol
    {
    }

    method ModifyOrder(symbol: string, id: OrderId, price: Price, qty: Quantity) returns (ok: bool)
      requires Valid()
      modifies this`views, owner.Keys
      ensures Valid()
      ensures symbol !in old(views) ==> !ok && views == old(views)
      ensures symbol in old(views) ==> ok == Modify(old(views[symbol]), id, price, qty).1
                                       && views == old(views)[symbol := Modify(old(views[symbol]), id, price, qty).0]
    {
      hide OrderBook.Valid, OrderBook.Repr, Known, Holds, WellFormed, Modify;
      if symbol !in books {
        return false;
      }
      ReadyToChange(symbol);
      ModifyKnows(views[symbol], id, price, qty);
      ModifyKeepsSymbol(views[symbol], id, price, qty);
      var book := books[symbol];
      ok := book.ModifyOrder(id, price, qty);
      views := views[symbol := book.view];
      forall s | s in books
        ensures Holds(s)
      {
        if s != symbol {
          Untouched(s);
        } else {
          Established(s);
        }
      }
    }

    method OnTick(symbol: string, lastPrice: Price)
      requires Valid()
      modifies risk
      ensures Valid()
                && View() == old(View()).(risk := Risk.OnPrice(old(risk.View()), symbol, Risk.FromPrice(lastPrice)))
    {
      hide Holds;
      risk.UpdateMarketPrice(symbol, Risk.FromPrice(lastPrice));
    }
  }

  // ---------------------------------------------------------------- a submission is a protocol run

  /** What a submitter does under the lock: report so many fills, then let go. */
  function Reports(i: nat, fills: nat): seq<Protocol.Action> {
    if fills == 0 then [Protocol.Exit(i)] else [Protocol.ReportFill(i)] + Reports(i, fills - 1)
  }

  /** The protocol actions of a submission that nobody interleaves with. */
  function Uninterrupted(sys: Protocol.Sys, submit: Protocol.Action): seq<Protocol.Action>
    requires submit.Submit?
  {
    var i := |sys.flights|;
    var (_, verdict) :=
      Risk.Check(sys.risk, submit.symbol, submit.order, submit.currentPrice, submit.windowNow, submit.stampNow);
    if verdict != Risk.Approved
    then [submit]
    else if submit.symbol !in sys.books then [submit, Protocol.Enter(i)]
    else [submit, Protocol.Enter(i)] + Reports(i, |Add(sys.books[submit.symbol], submit.order).trades|)
  }

  lemma {:induction false} ReportsRun(symbol: string, sys: Protocol.Sys, i: nat)
    requires i == |sys.flights| - 1 && sys.flights[i].Filling?
    ensures var f := sys.flights[i];
            Protocol.Leads(symbol, sys, Reports(i, |f.pending|),
                           sys.(risk := ReportAll(sys.risk, f.order, f.pending), flights := sys.flights[..i]),
                             |sys.flights|)
    decreases |sys.flights[i].pending|
  {
    hide Protocol.Leads, Protocol.InFlight;
    var f := sys.flights[i];
    Protocol.InFlightAtMost(sys.flights, symbol);
    if f.pending == [] {
      var sys' := Protocol.Do(sys, Protocol.Exit(i));
      assert RemoveAt(sys.flights, i) == sys.flights[..i];
      Protocol.InFlightAtMost(sys'.flights, symbol);
      Protocol.OneLeads(symbol, sys, Protocol.Exit(i), |sys.flights|);
    } else {
      var sys' := Protocol.Do(sys, Protocol.ReportFill(i));
      Protocol.InFlightAtMost(sys'.flights, symbol);
      Protocol.OneLeads(symbol, sys, Protocol.ReportFill(i), |sys.flights|);
      ReportsRun(symbol, sys', i);
      assert sys'.flights[..i] == sys.flights[..i];
      Protocol.LeadsOn(symbol, sys, [Protocol.ReportFill(i)], sys', Reports(i, |f.pending| - 1),
                       sys.(risk := ReportAll(sys.risk, f.order, f.pending), flights := sys.flights[..i]),
                         |sys.flights|);
    }
  }

  /** Submitting from start to end is exactly that run: the books and the risk state come out the
      same, nobody is left in flight, and at no point was more than one more in flight than before. */
  lemma SubmitIsProtocolRun(symbol: string, sys: Protocol.Sys, submit: Protocol.Action, st: Sim)
    requires submit.Submit? && Protocol.Enabled(sys, submit) && Protocol.LockFree(sys)
    requires st.books == sys.books && st.risk == sys.risk
    ensures var (st', _) :=
              Submit(st, submit.symbol, submit.order, submit.currentPrice, submit.windowNow, submit.stampNow);
            Protocol.Leads(symbol, sys, Uninterrupted(sys, submit),
                           sys.(books := st'.books, risk := st'.risk, used := sys.used + {submit.order.id}),
                             |sys.flights| + 1)
  {
    hide Risk.Check, Add, ReportAll, Reports, Protocol.Leads, Protocol.InFlight;
    var i := |sys.flights|;
    var sys1 := Protocol.Do(sys, submit);
    Protocol.InFlightAtMost(sys.flights, symbol);
    Protocol.InFlightAtMost(sys1.flights, symbol);
    Protocol.OneLeads(symbol, sys, submit, i + 1);
    if sys1.flights != sys.flights {
      assert sys1.flights[..i] == sys.flights;
      var sys2 := Protocol.Do(sys1, Protocol.Enter(i));
      Protocol.InFlightAtMost(sys2.flights, symbol);
      Protocol.OneLeads(symbol, sys1, Protocol.Enter(i), i + 1);
      Protocol.LeadsOn(symbol, sys, [submit], sys1, [Protocol.Enter(i)], sys2, i + 1);
      assert [submit] + [Protocol.Enter(i)] == [submit, Protocol.Enter(i)];
      if submit.symbol !in sys.books {
        assert RemoveAt(sys1.flights, i) == sys.flights;
      } else {
        ReportsRun(symbol, sys2, i);
        assert sys2.flights[..i] == sys.flights;
        var f := sys2.flights[i];
        var sys3 := sys2.(risk := ReportAll(sys2.risk, f.order, f.pending), flights := sys.flights);
        Protocol.LeadsOn(symbol, sys, [submit, Protocol.Enter(i)], sys2, Reports(i, |f.pending|), sys3, i + 1);
      }
    }
  }
}
