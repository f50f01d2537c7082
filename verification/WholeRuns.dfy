/**
 The refinement over whole runs: whatever sequence of adds, cancels and modifies callers make on an
 order book object, it stands for the reference book after the same sequence, so that everything
 proved about runs of the reference book holds for the object's trades, callbacks and queues.
 */
module WholeRuns {
  import opened Types
  import opened FlatBook
  import opened PriceLevels
  import opened OrderBooks
  import opened Lifecycle
  import opened Matching

  lemma RunEnds(b: Book, ops: seq<Op>, i: nat)
    requires i <= |ops| && LegalRun(b, ops[i..])
    ensures i < |ops| ==> LegalOp(b, ops[i]) && LegalRun(Step(b, ops[i]), ops[i + 1..])
    ensures i < |ops| ==> Run(b, ops[i..]) == Run(Step(b, ops[i]), ops[i + 1..])
    ensures i == |ops| ==> Run(b, ops[i..]) == b
  {
  }

  /** One caller operation on the object; an added order is a new object. */
  method Perform(book: OrderBook, op: Op)
    requires book.Valid() && LegalOp(book.view, op)
    modifies book.Repr()
    ensures book.Valid() && book.view == Step(old(book.view), op)
    ensures fresh(book.Repr() - old(book.Repr()))
  {
    hide OrderBook.Valid, Incoming, Add, Cancel, Modify;
    match op {
      case AddOp(o) =>
        var order := new Order(o);
        var trades := book.AddOrder(order);
      case CancelOp(id) =>
        var ok := book.CancelOrder(id);
      case ModifyOp(id, price, qty) =>
        var ok := book.ModifyOrder(id, price, qty);
    }
  }

  method PerformAll(book: OrderBook, ops: seq<Op>)
    requires book.Valid() && LegalRun(book.view, ops)
    modifies book.Repr()
    ensures book.Valid() && book.view == Run(old(book.view), ops)
  {
    hide OrderBook.Valid, Step, Run, LegalRun, LegalOp;
    assert ops[0..] == ops;
    for i := 0 to |ops|
      invariant book.Valid() && LegalRun(book.view, ops[i..])
      invariant Run(book.view, ops[i..]) == Run(old(book.view), ops)
      invariant fresh(book.Repr() - old(book.Repr()))
    {
      RunEnds(book.view, ops, i);
      Perform(book, ops[i]);
    }
    RunEnds(book.view, ops, |ops|);
  }

  lemma NewBookIsInOrder(symbol: string)
    ensures var b := Empty(symbol); WellFormed(b) && Accounted(b, Known(b)) && Uncrossed(b.resting) && b.log == []
  {
  }

  /** From a new book: the trades numbered 1..n, every order filled by exactly the trades naming it,
      and, unless a modify reached across, the best bid below the best ask. */
  method RunNewBook(symbol: string, ops: seq<Op>) returns (book: OrderBook, bid: Price, ask: Price)
    requires LegalRun(Empty(symbol), ops)
    ensures fresh(book) && book.Valid() && book.view == Run(Empty(symbol), ops)
    ensures Accounted(book.view, Known(book.view))
    ensures var bids := exists o :: o in book.view.resting && o.side.Buy?;
            var asks := exists o :: o in book.view.resting && o.side.Sell?;
            NeverModifiesAcross(Empty(symbol), ops) && bids && asks ==> bid < ask
  {
    hide OrderBook.Valid, Run, LegalRun, NeverModifiesAcross, Accounted, Known, Uncrossed, WellFormed;
    book := new OrderBook(symbol);
    NewBookIsInOrder(symbol);
    PerformAll(book, ops);
    RunAccounts(Empty(symbol), ops);
    if NeverModifiesAcross(Empty(symbol), ops) {
      NeverCrosses(Empty(symbol), ops);
    }
    UncrossedIffBestPrices(book.view.resting);
    bid := book.BestPrice(Buy);
    ask := book.BestPrice(Sell);
  }
}
