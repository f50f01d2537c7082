/** What incoming orders traded and paid, read off a book's own callbacks. */
module TakerFlow {
  import opened Types
  import opened FlatBook
  import opened BookInvariants

  /** A trade callback is followed by the callbacks for the maker and then the taker, so the side of
      the second order after a trade is the incoming side. */
  function Flow(log: seq<Event>): int {
    var n := |log|;
    if n == 0 then 0
    else if n >= 3 && log[n - 3].TradeEvent? && log[n - 1].OrderEvent? then
      Flow(log[..n - 3]) + Signed(log[n - 1].order.side, log[n - 3].trade.qty)
    else Flow(log[..n - 1])
  }

  /** What a trade moves to the side that took it: its quantity at its price, in dollars. */
  function Value(side: Side, t: Trade): real {
    (if side.Buy? then t.qty else -t.qty) as real * (t.price as real / 10000.0)
  }

  /** The same of a list of trades taken by one side. */
  function Values(side: Side, ts: seq<Trade>): real {
    if ts == [] then 0.0 else Value(side, ts[0]) + Values(side, ts[1..])
  }

  /** What incoming sellers received less what incoming buyers paid, in dollars. */
  function CashFlow(log: seq<Event>): real {
    var n := |log|;
    if n == 0 then 0.0
    else if n >= 3 && log[n - 3].TradeEvent? && log[n - 1].OrderEvent? then
      CashFlow(log[..n - 3]) - Value(log[n - 1].order.side, log[n - 3].trade)
    else CashFlow(log[..n - 1])
  }

  /** No trade whose order callbacks are still to come. */
  ghost predicate Settled(log: seq<Event>) {
    var n := |log|;
    (n >= 1 ==> log[n - 1].OrderEvent?) && (n >= 2 ==> log[n - 2].OrderEvent?)
  }

  lemma NotifyFlow(b: Book, o: OrderRec)
    requires Settled(b.log)
    ensures Settled(Notify(b, o).log) && Flow(Notify(b, o).log) == Flow(b.log)
    ensures CashFlow(Notify(b, o).log) == CashFlow(b.log)
  {
  }

  lemma FillFlow(b: Book, taker: OrderRec)
    requires CanFill(b, taker)
    ensures var f := FillBest(b, taker);
            && |f.trades| == 1 && f.order.side == taker.side
            && Settled(f.book.log) && Flow(f.book.log) == Flow(b.log) + Signed(taker.side, f.trades[0].qty)
            && CashFlow(f.book.log) == CashFlow(b.log) - Value(taker.side, f.trades[0])
  {
  }

  lemma {:induction false} SweepFlow(b: Book, taker: OrderRec)
    requires Settled(b.log)
    ensures var r := Sweep(b, taker);
            && Settled(r.book.log) && Flow(r.book.log) == Flow(b.log) + Signed(taker.side, Volume(r.trades))
            && CashFlow(r.book.log) == CashFlow(b.log) - Values(taker.side, r.trades)
    decreases |b.resting|, taker.Remaining()
  {
    hide Flow, CashFlow, Value, Settled, FillBest, CanFill;
    if CanFill(b, taker) {
      var f := FillBest(b, taker);
      FillFlow(b, taker);
      FillShrinks(b, taker);
      SweepFlow(f.book, f.order);
      assert (f.trades + Sweep(f.book, f.order).trades)[1..] == Sweep(f.book, f.order).trades;
    }
  }

  lemma NothingTaken(side: Side)
    ensures Values(side, []) == 0.0
  {
  }

  lemma AddFlow(b: Book, order: OrderRec)
    requires Settled(b.log)
    ensures var r := Add(b, order);
            && Settled(r.book.log) && Flow(r.book.log) == Flow(b.log) + Signed(order.side, Volume(r.trades))
            && CashFlow(r.book.log) == CashFlow(b.log) - Values(order.side, r.trades)
  {
    hide Flow, CashFlow, Values, Settled, Sweep, EligibleQty;
    var o := order.(status := New);
    var b1 := Notify(b, o);
    NothingTaken(o.side);
    NotifyFlow(b, o);
    SweepFlow(b1, o);
    var r := Sweep(b1, o);
    NotifyFlow(r.book, r.order.(status := Cancelled));
    NotifyFlow(r.book, r.order.(status := Expired));
    NotifyFlow(b1, o.(status := Expired));
  }

  lemma CancelFlow(b: Book, id: OrderId)
    requires Settled(b.log)
    ensures var b' := Cancel(b, id).0;
            Settled(b'.log) && Flow(b'.log) == Flow(b.log) && CashFlow(b'.log) == CashFlow(b.log)
  {
  }
}
