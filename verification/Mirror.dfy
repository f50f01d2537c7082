/**
 Buying and selling are mirror images: swap the sides and negate the prices of a book and of an
 operation, and the outcome is the swapped and negated outcome. The engine codes the two sweeps
 differently; both refine the reference book, so the symmetry below is theirs too.
 */
module Mirror {
  import opened Types
  import opened FlatBook
  import opened BookInvariants
  import opened Matching

  function MirrorOrder(o: OrderRec): OrderRec {
    o.(side := o.side.Opposite(), price := -o.price)
  }

  function MirrorTrade(t: Trade): Trade {
    t.(buyId := t.sellId, sellId := t.buyId, price := -t.price)
  }

  function MirrorEvent(e: Event): Event {
    match e
    case OrderEvent(o) => OrderEvent(MirrorOrder(o))
    case TradeEvent(t) => TradeEvent(MirrorTrade(t))
  }

  function MirrorList(rs: seq<OrderRec>): seq<OrderRec> {
    seq(|rs|, i requires 0 <= i < |rs| => MirrorOrder(rs[i]))
  }

  function MirrorTrades(ts: seq<Trade>): seq<Trade> {
    seq(|ts|, i requires 0 <= i < |ts| => MirrorTrade(ts[i]))
  }

  function MirrorLog(log: seq<Event>): seq<Event> {
    seq(|log|, i requires 0 <= i < |log| => MirrorEvent(log[i]))
  }

  function MirrorGone(gone: map<OrderId, OrderRec>): map<OrderId, OrderRec> {
    map id | id in gone :: MirrorOrder(gone[id])
  }

  function MirrorBook(b: Book): Book {
    Book(b.symbol, MirrorList(b.resting), MirrorGone(b.gone), b.nextTradeId, MirrorLog(b.log))
  }

  function MirrorOutcome(r: Outcome): Outcome {
    Outcome(MirrorBook(r.book), MirrorOrder(r.order), MirrorTrades(r.trades))
  }

  function MirrorOp(op: Op): Op {
    match op
    case AddOp(o) => AddOp(MirrorOrder(o))
    case CancelOp(id) => op
    case ModifyOp(id, price, qty) => ModifyOp(id, -price, qty)
  }

  function MirrorLimit(limit: Option<Price>): Option<Price> {
    if limit.Some? then Some(-limit.value) else None
  }

  lemma MirrorBest(rs: seq<OrderRec>, side: Side)
    ensures Best(MirrorList(rs), side.Opposite()) == Best(rs, side)
  {
    var k, ms := Best(rs, side), MirrorList(rs);
    if k < |rs| {
      BestIsUnique(ms, side.Opposite(), k);
    } else {
      assert forall i :: 0 <= i < |rs| ==> ms[i].side == rs[i].side.Opposite();
    }
  }

  lemma {:induction false} MirrorEligible(rs: seq<OrderRec>, side: Side, limit: Option<Price>)
    ensures EligibleQty(MirrorList(rs), side.Opposite(), MirrorLimit(limit)) == EligibleQty(rs, side, limit)
  {
    if rs != [] {
      assert MirrorList(rs)[1..] == MirrorList(rs[1..]);
      MirrorEligible(rs[1..], side, limit);
    }
  }

  lemma {:induction false} MirrorFind(rs: seq<OrderRec>, id: OrderId)
    ensures Find(MirrorList(rs), id) == Find(rs, id)
  {
    if rs != [] {
      assert MirrorList(rs)[1..] == MirrorList(rs[1..]);
      MirrorFind(rs[1..], id);
    }
  }

  lemma MirrorRemoveAt(rs: seq<OrderRec>, k: nat)
    requires k < |rs|
    ensures RemoveAt(MirrorList(rs), k) == MirrorList(RemoveAt(rs, k))
  {
  }

  lemma MirrorAfter(rs: seq<OrderRec>, gone: map<OrderId, OrderRec>, k: nat, o: OrderRec)
    requires k < |rs|
    ensures RestingAfter(MirrorList(rs), k, MirrorOrder(o)) == MirrorList(RestingAfter(rs, k, o))
    ensures GoneAfter(MirrorGone(gone), MirrorOrder(o)) == MirrorGone(GoneAfter(gone, o))
  {
  }

  lemma MirrorFill(b: Book, taker: OrderRec)
    ensures CanFill(MirrorBook(b), MirrorOrder(taker)) == CanFill(b, taker)
    ensures CanFill(b, taker) ==> FillBest(MirrorBook(b), MirrorOrder(taker)) == MirrorOutcome(FillBest(b, taker))
  {
    hide Best, RestingAfter, GoneAfter, MirrorGone;
    var k := Best(b.resting, taker.side.Opposite());
    MirrorBest(b.resting, taker.side.Opposite());
    if CanFill(b, taker) {
      var maker := b.resting[k];
      MirrorAfter(b.resting, b.gone, k, WithFill(maker, Min(taker.Remaining(), maker.Remaining())));
      var f, g := FillBest(b, taker), FillBest(MirrorBook(b), MirrorOrder(taker));
      assert g.book.log == MirrorLog(f.book.log);
      assert g.trades == MirrorTrades(f.trades);
    }
  }

  /** The sell sweep is the buy sweep seen in the mirror, and the other way round. */
  lemma {:induction false} MirrorSweep(b: Book, taker: OrderRec)
    ensures Sweep(MirrorBook(b), MirrorOrder(taker)) == MirrorOutcome(Sweep(b, taker))
    decreases |b.resting|, taker.Remaining()
  {
    hide CanFill, FillBest;
    MirrorFill(b, taker);
    if CanFill(b, taker) {
      var f := FillBest(b, taker);
      FillShrinks(b, taker);
      MirrorSweep(f.book, f.order);
      var r := Sweep(f.book, f.order);
      assert MirrorTrades(f.trades + r.trades) == MirrorTrades(f.trades) + MirrorTrades(r.trades);
    } else {
      assert MirrorTrades([]) == [];
    }
  }

  lemma MirrorNotify(b: Book, o: OrderRec)
    ensures Notify(MirrorBook(b), MirrorOrder(o)) == MirrorBook(Notify(b, o))
  {
  }

  lemma MirrorRetire(r: Outcome)
    ensures Retire(MirrorOutcome(r)) == MirrorOutcome(Retire(r))
    ensures Rest(MirrorOutcome(r)) == MirrorOutcome(Rest(r))
  {
  }

  lemma MirrorAdd(b: Book, order: OrderRec)
    ensures Add(MirrorBook(b), MirrorOrder(order)) == MirrorOutcome(Add(b, order))
  {
    hide Sweep, EligibleQty, MirrorBook, Retire, Rest, Notify;
    var o := order.(status := New);
    var b1 := Notify(b, o);
    MirrorNotify(b, o);
    MirrorSweep(b1, o);
    var r := Sweep(b1, o);
    MirrorRetire(r);
    match o.typ
    case Limit =>
    case Market =>
      MirrorNotify(r.book, r.order.(status := Cancelled));
      MirrorRetire(EndRemainder(r, Cancelled));
    case Ioc =>
      MirrorNotify(r.book, r.order.(status := Expired));
      MirrorRetire(EndRemainder(r, Expired));
    case Fok =>
      var x := o.(status := Expired);
      RestingOf(b1);
      MirrorEligible(b1.resting, o.side, Some(o.price));
      MirrorNotify(b1, x);
      MirrorRetire(Outcome(Notify(b1, x), x, []));
      assert MirrorTrades([]) == [];
  }

  lemma RestingOf(b: Book)
    ensures MirrorBook(b).resting == MirrorList(b.resting)
  {
  }

  lemma MirrorCancel(b: Book, id: OrderId)
    ensures Cancel(MirrorBook(b), id).0 == MirrorBook(Cancel(b, id).0)
  {
    hide RemoveAt;
    var k := Find(b.resting, id);
    MirrorFind(b.resting, id);
    if k < |b.resting| {
      var o := b.resting[k].(status := Cancelled);
      MirrorRemoveAt(b.resting, k);
      MirrorAfter(b.resting, b.gone, k, o);
      MirrorNotify(b, o);
    }
  }

  lemma MirrorModify(b: Book, id: OrderId, price: Price, qty: Quantity)
    ensures Modify(MirrorBook(b), id, -price, qty).0 == MirrorBook(Modify(b, id, price, qty).0)
  {
    hide RemoveAt;
    var k := Find(b.resting, id);
    MirrorFind(b.resting, id);
    if k < |b.resting| {
      MirrorRemoveAt(b.resting, k);
    }
  }

  lemma MirrorStep(b: Book, op: Op)
    ensures Step(MirrorBook(b), MirrorOp(op)) == MirrorBook(Step(b, op))
  {
    hide Add, Cancel, Modify, MirrorBook;
    match op
    case AddOp(o) => MirrorAdd(b, o);
    case CancelOp(id) => MirrorCancel(b, id);
    case ModifyOp(id, price, qty) => MirrorModify(b, id, price, qty);
  }

  /** Whole runs mirror: same fills in the same order, mirrored final book. */
  lemma {:induction false} MirrorRun(b: Book, ops: seq<Op>, mirrored: seq<Op>)
    requires |mirrored| == |ops| && forall i :: 0 <= i < |ops| ==> mirrored[i] == MirrorOp(ops[i])
    ensures Run(MirrorBook(b), mirrored) == MirrorBook(Run(b, ops))
    decreases |ops|
  {
    hide MirrorBook, Step;
    if ops != [] {
      MirrorStep(b, ops[0]);
      MirrorRun(Step(b, ops[0]), ops[1..], mirrored[1..]);
    }
  }
}
