/**
 What matching achieves: a sweep consumes a prefix of the price-time priority queue, trades as much
 as it can, and leaves no crossed prices behind; fill-or-kill is all or nothing within its limit.
 */
module Matching {
  import opened Types
  import opened FlatBook
  import opened BookInvariants
  import opened PriceLevels

  // ---------------------------------------------------------------- the priority queue

  /** The orders of one side in the order in which repeated rescans would pick them. */
  function PriorityQueue(rs: seq<OrderRec>, side: Side): seq<OrderRec>
    decreases |rs|
  {
    var k := Best(rs, side);
    if k == |rs| then [] else [rs[k]] + PriorityQueue(RemoveAt(rs, k), side)
  }

  lemma {:induction false} QueueMembers(rs: seq<OrderRec>, side: Side)
    ensures forall i :: 0 <= i < |PriorityQueue(rs, side)| ==> PriorityQueue(rs, side)[i] in rs
    ensures forall i :: 0 <= i < |PriorityQueue(rs, side)| ==> PriorityQueue(rs, side)[i].side == side
    decreases |rs|
  {
    hide Best;
    var k := Best(rs, side);
    if k < |rs| {
      QueueMembers(RemoveAt(rs, k), side);
      assert forall o :: o in RemoveAt(rs, k) ==> o in rs;
    }
  }

  /** The queue is price-time priority: prices never improve along it, and at each price it holds
      exactly that price's orders, in arrival order. */
  lemma {:induction false} PriorityQueueIsPriceTime(rs: seq<OrderRec>, side: Side)
    ensures var q := PriorityQueue(rs, side);
            && (forall i, j :: 0 <= i < j < |q| ==> !Better(side, q[j].price, q[i].price))
            && (forall p :: QueueAt(q, side, p) == QueueAt(rs, side, p))
    decreases |rs|
  {
    hide Best;
    var k := Best(rs, side);
    var q := PriorityQueue(rs, side);
    if k < |rs| {
      var rest := PriorityQueue(RemoveAt(rs, k), side);
      PriorityQueueIsPriceTime(RemoveAt(rs, k), side);
      QueueMembers(RemoveAt(rs, k), side);
      NobodyWaitsBeforeBest(rs, side);
      forall j | 0 <= j < |rest|
        ensures !Better(side, rest[j].price, rs[k].price)
      {
        assert rest[j] in rs;
      }
      forall p
        ensures QueueAt(q, side, p) == QueueAt(rs, side, p)
      {
        QueueSplit(rs, k, side, p);
        QueueConcat([rs[k]], rest, side, p);
      }
    } else {
      forall p
        ensures QueueAt(rs, side, p) == []
      {
        if QueueAt(rs, side, p) != [] {
          var i := QueueMember(rs, side, p, 0);
        }
      }
    }
  }

  lemma BestIsUnique(rs: seq<OrderRec>, side: Side, k: nat)
    requires k < |rs| && rs[k].side == side
    requires forall i :: 0 <= i < |rs| && rs[i].side == side ==> !Better(side, rs[i].price, rs[k].price)
    requires forall i :: 0 <= i < k && rs[i].side == side ==> Better(side, rs[k].price, rs[i].price)
    ensures Best(rs, side) == k
  {
  }

  lemma QueueAfterPartialFill(rs: seq<OrderRec>, side: Side, k: nat, o: OrderRec)
    requires k == Best(rs, side) < |rs| && o.side == side && o.price == rs[k].price
    ensures PriorityQueue(rs[k := o], side) == [o] + PriorityQueue(rs, side)[1..]
  {
    var rs' := rs[k := o];
    BestIsUnique(rs', side, k);
    assert RemoveAt(rs', k) == RemoveAt(rs, k);
  }

  // ---------------------------------------------------------------- prefix consumption

  /** The trades a taker makes by eating a queue from the front, starting with trade number n. */
  function Eat(queue: seq<OrderRec>, taker: OrderRec, n: nat, symbol: string): seq<Trade> {
    if queue == [] || taker.Remaining() <= 0 || !Accepts(taker, queue[0].price) then []
    else
      var q := Min(taker.Remaining(), queue[0].Remaining());
      var t := if taker.side.Buy?
               then Trade(n, taker.id, queue[0].id, symbol, queue[0].price, q)
               else Trade(n, queue[0].id, taker.id, symbol, queue[0].price, q);
      [t] + Eat(queue[1..], WithFill(taker, q), n + 1, symbol)
  }

  /** What eating leaves of the queue; only its first order can have been filled in part. */
  function Leftover(queue: seq<OrderRec>, taker: OrderRec): seq<OrderRec> {
    if queue == [] || taker.Remaining() <= 0 || !Accepts(taker, queue[0].price) then queue
    else if queue[0].Remaining() <= taker.Remaining() then
      Leftover(queue[1..], WithFill(taker, queue[0].Remaining()))
    else [WithFill(queue[0], taker.Remaining())] + queue[1..]
  }

  /** One fill takes the front of the queue, whole or in part. */
  lemma FillEatsFront(b: Book, taker: OrderRec)
    requires WellFormed(b) && Taking(b, taker) && CanFill(b, taker)
    ensures var side := taker.side.Opposite();
            var f := FillBest(b, taker);
            var q := PriorityQueue(b.resting, side);
            && q != [] && q[0] == b.resting[Best(b.resting, side)]
            && PriorityQueue(f.book.resting, side) ==
                 if q[0].Remaining() <= taker.Remaining() then q[1..] else [WithFill(q[0], taker.Remaining())] + q[1..]
  {
    var side := taker.side.Opposite();
    var k := Best(b.resting, side);
    assert Live(b.resting[k]);
    var f := FillBest(b, taker);
    if b.resting[k].Remaining() > taker.Remaining() {
      QueueAfterPartialFill(b.resting, side, k, f.book.resting[k]);
    }
  }

  /** Rescanning the whole book for every fill comes to the same as sorting it once by price-time
      priority and eating a prefix. */
  lemma {:induction false} SweepEatsPrefix(b: Book, taker: OrderRec)
    requires WellFormed(b) && Taking(b, taker)
    ensures var q := PriorityQueue(b.resting, taker.side.Opposite());
            var r := Sweep(b, taker);
            && r.trades == Eat(q, taker, b.nextTradeId, b.symbol)
            && PriorityQueue(r.book.resting, taker.side.Opposite()) == Leftover(q, taker)
    decreases |b.resting|, taker.Remaining()
  {
    hide Best, WellFormed, Taking;
    var side := taker.side.Opposite();
    var q := PriorityQueue(b.resting, side);
    if CanFill(b, taker) {
      var f := FillBest(b, taker);
      FillKeepsWellFormed(b, taker);
      FillContinues(b, taker);
      FillEatsFront(b, taker);
      SweepEatsPrefix(f.book, f.order);
    }
  }

  lemma {:induction false} EatShape(queue: seq<OrderRec>, taker: OrderRec, n: nat, symbol: string)
    requires forall i :: 0 <= i < |queue| ==> queue[i].Remaining() > 0
    ensures var ts := Eat(queue, taker, n, symbol);
            && |ts| <= |queue|
            && (forall i :: 0 <= i < |ts| ==>
                  && ts[i].tradeId == n + i && ts[i].price == queue[i].price && 0 < ts[i].qty <= queue[i].Remaining()
                  && (if taker.side.Buy? then ts[i].buyId == taker.id && ts[i].sellId == queue[i].id
                      else ts[i].sellId == taker.id && ts[i].buyId == queue[i].id))
            && (forall i :: 0 <= i < |ts| - 1 ==> ts[i].qty == queue[i].Remaining())
  {
    if !(queue == [] || taker.Remaining() <= 0 || !Accepts(taker, queue[0].price)) {
      var q := Min(taker.Remaining(), queue[0].Remaining());
      EatShape(queue[1..], WithFill(taker, q), n + 1, symbol);
    }
  }

  /** Trades of one sweep: numbered on from the book's counter, at prices that never improve, every
      maker but the last traded out in full. */
  lemma TradesWalkAwayFromTouch(b: Book, taker: OrderRec)
    requires WellFormed(b) && Taking(b, taker)
    ensures var q := PriorityQueue(b.resting, taker.side.Opposite());
            var ts := Sweep(b, taker).trades;
            && |ts| <= |q|
            && (forall i :: 0 <= i < |ts| ==>
                 ts[i].tradeId == b.nextTradeId + i && ts[i].price == q[i].price && ts[i].qty > 0)
            && (forall i :: 0 <= i < |ts| ==> (if taker.side.Buy? then ts[i].sellId else ts[i].buyId) == q[i].id)
            && (forall i :: 0 <= i < |ts| - 1 ==> ts[i].qty == q[i].Remaining())
            && (forall i, j :: 0 <= i < j < |ts| ==> !Better(taker.side.Opposite(), ts[j].price, ts[i].price))
  {
    hide Sweep, Eat, PriorityQueue, Taking;
    var q := PriorityQueue(b.resting, taker.side.Opposite());
    QueueMembers(b.resting, taker.side.Opposite());
    forall i | 0 <= i < |q|
      ensures q[i].Remaining() > 0
    {
      assert q[i] in b.resting;
      var j :| 0 <= j < |b.resting| && b.resting[j] == q[i];
      assert Live(b.resting[j]);
    }
    SweepEatsPrefix(b, taker);
    EatShape(q, taker, b.nextTradeId, b.symbol);
    PriorityQueueIsPriceTime(b.resting, taker.side.Opposite());
  }

  /** Every trade of a sweep has the book's symbol and a positive quantity, and names the taker on
      the taker's side and only there. */
  ghost predicate TakenBy(t: Trade, symbol: string, o: OrderRec) {
    && t.symbol == symbol && t.qty > 0
    && (if o.side.Buy? then t.buyId == o.id && t.sellId != o.id else t.sellId == o.id && t.buyId != o.id)
  }

  lemma {:induction false} SweepTradesTaken(b: Book, taker: OrderRec)
    requires WellFormed(b) && Taking(b, taker)
    ensures var r := Sweep(b, taker);
            r.book.symbol == b.symbol && forall i :: 0 <= i < |r.trades| ==> TakenBy(r.trades[i], b.symbol, taker)
    decreases |b.resting|, taker.Remaining()
  {
    if CanFill(b, taker) {
      var k := Best(b.resting, taker.side.Opposite());
      assert Live(b.resting[k]) && b.resting[k].id != taker.id;
      var f := FillBest(b, taker);
      FillKeepsWellFormed(b, taker);
      SweepTradesTaken(f.book, f.order);
    }
  }

  /** The trades of an added order: all taken by it, and never more than it asked for. */
  lemma AddTradesTaken(b: Book, order: OrderRec)
    requires WellFormed(b) && Incoming(b, order)
    ensures var r := Add(b, order);
            && r.book.symbol == b.symbol && 0 <= Volume(r.trades) <= order.qty
            && forall i :: 0 <= i < |r.trades| ==> TakenBy(r.trades[i], b.symbol, order)
  {
    hide Sweep, EligibleQty, WellFormed;
    var o := order.(status := New);
    var b1 := Notify(b, o);
    NotifyKeepsWellFormed(b, o);
    SweepTradesTaken(b1, o);
    AddTradesAreSweepTrades(b, order);
    if o.typ.Fok? {
      FillOrKill(b, order);
    } else {
      MaximalMatching(b, order);
      EligibleIffBest(b, order.side, SweepLimit(order));
    }
  }

  // ---------------------------------------------------------------- what each order type gets

  /** Fill-or-kill: nothing at all, or everything and within the limit; decided by the liquidity
      within the limit alone. */
  lemma FillOrKill(b: Book, o: OrderRec)
    requires WellFormed(b) && Incoming(b, o) && o.typ.Fok?
    ensures var r := Add(b, o);
            if EligibleQty(b.resting, o.side, Some(o.price)) >= o.qty then
              && Volume(r.trades) == o.qty && r.order == o.(filled := o.qty, status := Filled)
              && (forall i :: 0 <= i < |r.trades| ==>
                    if o.side.Buy? then r.trades[i].price <= o.price else r.trades[i].price >= o.price)
            else
              && r.trades == [] && r.order == o.(status := Expired)
              && r.book.resting == b.resting && r.book.nextTradeId == b.nextTradeId
  {
    hide EligibleQty, Sweep;
    var o1 := o.(status := New);
    var b1 := Notify(b, o1);
    if EligibleQty(b.resting, o.side, Some(o.price)) >= o.qty {
      SweepTakesAllItCan(b1, o1, Some(o.price));
      SweepKeepsWellFormed(b1, o1);
    }
  }

  /** Limit, market and immediate-or-cancel orders trade all they want or all they can reach, and
      what remains rests, is cancelled, or expires. */
  lemma MaximalMatching(b: Book, o: OrderRec)
    requires WellFormed(b) && Incoming(b, o) && !o.typ.Fok?
    ensures var r := Add(b, o);
            var v := Min(o.qty, EligibleQty(b.resting, o.side, if o.typ.Market? then None else Some(o.price)));
            && Volume(r.trades) == v
            && (forall i :: 0 <= i < |r.trades| && !o.typ.Market? ==>
                  if o.side.Buy? then r.trades[i].price <= o.price else r.trades[i].price >= o.price)
            && r.order == o.(filled := v, status :=
                  if v == o.qty then Filled else if o.typ.Market? then Cancelled else if o.typ.Ioc? then Expired
                  else if v == 0 then New else PartiallyFilled)
            && (if o.typ.Limit? && v < o.qty
                then r.book.resting != [] && r.book.resting[|r.book.resting| - 1] == r.order
                else r.order.id in r.book.gone && r.book.gone[r.order.id] == r.order)
  {
    hide EligibleQty, Sweep, WellFormed;
    var o1 := o.(status := New);
    var b1 := Notify(b, o1);
    NotifyKeepsWellFormed(b, o1);
    SweepTakesAllItCan(b1, o1, SweepLimit(o1));
    SweepKeepsWellFormed(b1, o1);
  }

  // ---------------------------------------------------------------- the book never crosses

  /** Every resting buy is priced strictly below every resting sell. */
  ghost predicate Uncrossed(rs: seq<OrderRec>) {
    forall i, j :: 0 <= i < |rs| && 0 <= j < |rs| && rs[i].side.Buy? && rs[j].side.Sell? ==> rs[i].price < rs[j].price
  }

  /** An order price that does not reach any resting order on the other side. */
  ghost predicate ReachesNone(rs: seq<OrderRec>, side: Side, price: Price) {
    forall i :: 0 <= i < |rs| && rs[i].side == side.Opposite() ==> !WithinLimit(side, Some(price), rs[i].price)
  }

  lemma RemovalStaysUncrossed(rs: seq<OrderRec>, k: nat)
    requires k < |rs| && Uncrossed(rs)
    ensures Uncrossed(RemoveAt(rs, k))
  {
  }

  lemma AppendUncrossedIff(rs: seq<OrderRec>, o: OrderRec)
    requires Uncrossed(rs)
    ensures Uncrossed(rs + [o]) <==> ReachesNone(rs, o.side, o.price)
  {
    var rs' := rs + [o];
    if Uncrossed(rs') {
      forall i | 0 <= i < |rs| && rs[i].side == o.side.Opposite()
        ensures !WithinLimit(o.side, Some(o.price), rs[i].price)
      {
        assert rs'[i] == rs[i] && rs'[|rs|] == o;
      }
    }
    if ReachesNone(rs, o.side, o.price) {
      forall i, j | 0 <= i < |rs'| && 0 <= j < |rs'| && rs'[i].side.Buy? && rs'[j].side.Sell?
        ensures rs'[i].price < rs'[j].price
      {
      }
    }
  }

  lemma {:induction false} SweepStaysUncrossed(b: Book, taker: OrderRec)
    requires WellFormed(b) && Taking(b, taker) && Uncrossed(b.resting)
    ensures Uncrossed(Sweep(b, taker).book.resting)
    decreases |b.resting|, taker.Remaining()
  {
    if CanFill(b, taker) {
      var f := FillBest(b, taker);
      FillKeepsWellFormed(b, taker);
      RemovalStaysUncrossed(b.resting, Best(b.resting, taker.side.Opposite()));
      SweepStaysUncrossed(f.book, f.order);
    }
  }

  lemma AddStaysUncrossed(b: Book, o: OrderRec)
    requires WellFormed(b) && Incoming(b, o) && Uncrossed(b.resting)
    ensures Uncrossed(Add(b, o).book.resting)
  {
    hide Sweep, EligibleQty, Uncrossed, WellFormed;
    var o1 := o.(status := New);
    var b1 := Notify(b, o1);
    NotifyKeepsWellFormed(b, o1);
    SweepStaysUncrossed(b1, o1);
    SweepKeepsWellFormed(b1, o1);
    var r := Sweep(b1, o1);
    if o.typ.Limit? && !r.order.IsDone() {
      NothingReachable(r.book, r.order);
      AppendUncrossedIff(r.book.resting, r.order);
    }
  }

  lemma NothingReachable(b: Book, o: OrderRec)
    requires !CanFill(b, o) && o.Remaining() > 0 && o.typ.Limit?
    ensures ReachesNone(b.resting, o.side, o.price)
  {
  }

  lemma CancelStaysUncrossed(b: Book, id: OrderId)
    requires Uncrossed(b.resting)
    ensures Uncrossed(Cancel(b, id).0.resting)
  {
  }

  /** Whether an operation re-queues an order at a price that reaches the other side. */
  ghost predicate ModifiesAcross(b: Book, op: Op) {
    op.ModifyOp? && Modify(b, op.id, op.price, op.qty).1
    && var k := Find(b.resting, op.id); !ReachesNone(RemoveAt(b.resting, k), b.resting[k].side, op.price)
  }

  /** One operation keeps the book uncrossed exactly when it is not such a modify. */
  lemma StepUncrossedIff(b: Book, op: Op)
    requires WellFormed(b) && LegalOp(b, op) && Uncrossed(b.resting)
    ensures Uncrossed(Step(b, op).resting) <==> !ModifiesAcross(b, op)
  {
    hide Uncrossed, ReachesNone, RemoveAt, Add;
    match op
    case AddOp(o) => AddStaysUncrossed(b, o);
    case CancelOp(id) => CancelStaysUncrossed(b, id);
    case ModifyOp(id, price, qty) =>
      var k := Find(b.resting, id);
      if Modify(b, id, price, qty).1 {
        RemovalStaysUncrossed(b.resting, k);
        AppendUncrossedIff(RemoveAt(b.resting, k), b.resting[k].(price := price, qty := qty));
      }
  }

  ghost predicate NeverModifiesAcross(b: Book, ops: seq<Op>)
    decreases |ops|
  {
    ops != [] ==> !ModifiesAcross(b, ops[0]) && NeverModifiesAcross(Step(b, ops[0]), ops[1..])
  }

  /** Over whole runs: as long as no modify reaches across, best bid stays below best ask. */
  lemma {:induction false} NeverCrosses(b: Book, ops: seq<Op>)
    requires WellFormed(b) && LegalRun(b, ops) && Uncrossed(b.resting) && NeverModifiesAcross(b, ops)
    ensures Uncrossed(Run(b, ops).resting)
    decreases |ops|
  {
    if ops != [] {
      StepKeepsWellFormed(b, ops[0]);
      StepUncrossedIff(b, ops[0]);
      NeverCrosses(Step(b, ops[0]), ops[1..]);
    }
  }

  ghost predicate UncrossedThroughout(b: Book, ops: seq<Op>)
    decreases |ops|
  {
    Uncrossed(b.resting) && (ops != [] ==> UncrossedThroughout(Step(b, ops[0]), ops[1..]))
  }

  /** And only then: the book is uncrossed after every operation if and only if no modify reaches across. */
  lemma {:induction false} UncrossedThroughoutIff(b: Book, ops: seq<Op>)
    requires WellFormed(b) && LegalRun(b, ops) && Uncrossed(b.resting)
    ensures UncrossedThroughout(b, ops) <==> NeverModifiesAcross(b, ops)
    decreases |ops|
  {
    hide WellFormed, Uncrossed, Step, LegalOp, ModifiesAcross;
    if ops != [] {
      StepKeepsWellFormed(b, ops[0]);
      StepUncrossedIff(b, ops[0]);
      if Uncrossed(Step(b, ops[0]).resting) {
        UncrossedThroughoutIff(Step(b, ops[0]), ops[1..]);
      } else {
        CrossedNow(Step(b, ops[0]), ops[1..]);
      }
    }
  }

  lemma CrossedNow(b: Book, ops: seq<Op>)
    requires !Uncrossed(b.resting)
    ensures !UncrossedThroughout(b, ops)
  {
  }

  /** In terms of the two best prices. */
  lemma UncrossedIffBestPrices(rs: seq<OrderRec>)
    ensures Uncrossed(rs) <==>
              var bid, ask := Best(rs, Buy), Best(rs, Sell);
              bid < |rs| && ask < |rs| ==> rs[bid].price < rs[ask].price
  {
  }

  lemma UnmatchedRests(b: Book, o: OrderRec)
    requires o.typ.Limit? && o.status == New && ReachesNone(b.resting, o.side, o.price)
    ensures Add(b, o).book == Notify(b, o).(resting := b.resting + [o])
  {
  }

  lemma RunOfThree(b: Book, op1: Op, op2: Op, op3: Op)
    requires LegalOp(b, op1) && LegalOp(Step(b, op1), op2) && LegalOp(Step(Step(b, op1), op2), op3)
    ensures LegalRun(b, [op1, op2, op3]) && Run(b, [op1, op2, op3]) == Step(Step(Step(b, op1), op2), op3)
  {
    hide Step, LegalOp;
    var b1 := Step(b, op1);
    var b2 := Step(b1, op2);
    assert [op1, op2, op3][1..] == [op2, op3] && [op2, op3][1..] == [op3] && [op3][1..] == [];
    assert LegalRun(b2, [op3]) && Run(b2, [op3]) == Step(b2, op3);
    assert LegalRun(b1, [op2, op3]) && Run(b1, [op2, op3]) == Run(b2, [op3]);
  }

  lemma BidThenAsk(buy: OrderRec, sell: OrderRec)
    requires buy.side.Buy? && sell.side.Sell? && buy.price < sell.price && buy.id != sell.id && buy.qty > 0
    requires buy.typ.Limit? && buy.status == New && sell.typ.Limit? && sell.status == New
    ensures var b := Add(Empty(""), buy).book;
            b.resting == [buy] && b.gone == map[] && Add(b, sell).book.resting == [buy, sell]
  {
    hide Add;
    UnmatchedRests(Empty(""), buy);
    assert Add(Empty(""), buy).book.resting == [buy];
    UnmatchedRests(Add(Empty(""), buy).book, sell);
    assert [buy] + [sell] == [buy, sell];
  }

  lemma RepricedAcross(b: Book, buy: OrderRec, sell: OrderRec, price: Price)
    requires b.resting == [buy, sell] && buy.side.Buy? && sell.side.Sell? && buy.id != sell.id
    requires sell.filled < sell.qty && price <= buy.price
    ensures !Uncrossed(Modify(b, sell.id, price, sell.qty).0.resting)
  {
    FindIs(b.resting, 1);
    assert RemoveAt(b.resting, 1) == [buy];
    var rs := Modify(b, sell.id, price, sell.qty).0.resting;
    assert rs[0] == buy && rs[1] == sell.(price := price);
  }

  /** A modify is never matched, so it can cross the book: a sell at 101 re-priced below a bid at 100. */
  lemma ModifyCanCross()
    ensures exists ops :: LegalRun(Empty(""), ops) && !Uncrossed(Run(Empty(""), ops).resting)
  {
    hide Add, Modify, LegalRun, Run, Uncrossed;
    var buy := OrderRec(1, Buy, Limit, 100, 5, 0, New);
    var sell := OrderRec(2, Sell, Limit, 101, 5, 0, New);
    BidThenAsk(buy, sell);
    RunOfThree(Empty(""), AddOp(buy), AddOp(sell), ModifyOp(2, 99, 5));
    RepricedAcross(Add(Add(Empty(""), buy).book, sell).book, buy, sell, 99);
  }
}
