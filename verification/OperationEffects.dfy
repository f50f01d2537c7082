/**
 What each operation on the book comes to, said of its queues, its callbacks and what a taker could reach,
 without naming the operation's own steps: the order concerned changes as asked and nothing else does.
 */
module OperationEffects {
  import opened Types
  import opened FlatBook
  import opened BookInvariants
  import opened PriceLevels
  import opened Matching
  import opened Lifecycle
  import opened QueueEquivalence
  import opened NoTrace

  /** What an order offers a taker with this limit, or without one. */
  function Offered(o: OrderRec, side: Side, limit: Option<Price>): Quantity {
    if o.side != side && (limit.None? || if side.Buy? then o.price <= limit.value else o.price >= limit.value)
    then o.qty - o.filled else 0
  }

  lemma EligibleOfOne(o: OrderRec, side: Side, limit: Option<Price>)
    ensures EligibleQty([o], side, limit) == Offered(o, side, limit)
  {
    assert [o][1..] == [];
  }

  lemma FoundAt(rs: seq<OrderRec>, o: OrderRec) returns (k: nat)
    requires Distinct(rs) && o in rs
    ensures k < |rs| && rs[k] == o && Find(rs, o.id) == k && RemoveAt(rs, k) == Drop(rs, o.id)
  {
    k :| 0 <= k < |rs| && rs[k] == o;
    FindIs(rs, k);
    DropSplit(rs, o.id, k);
    DropAbsent(rs[..k], o.id);
    DropAbsent(rs[k + 1..], o.id);
    assert Drop([rs[k]], o.id) == [];
  }

  lemma {:induction false} DropAbsent(rs: seq<OrderRec>, x: OrderId)
    requires forall i :: 0 <= i < |rs| ==> rs[i].id != x
    ensures Drop(rs, x) == rs
  {
    if rs != [] {
      DropAbsent(rs[1..], x);
    }
  }

  lemma {:induction false} DropFromQueue(rs: seq<OrderRec>, x: OrderId, side: Side, p: Price)
    ensures QueueAt(Drop(rs, x), side, p) == Drop(QueueAt(rs, side, p), x)
  {
    if rs != [] {
      DropFromQueue(rs[1..], x, side, p);
      var kept := if rs[0].id == x then [] else [rs[0]];
      QueueConcat(kept, Drop(rs[1..], x), side, p);
      OneOrNone(rs[0], side, p);
    }
  }

  lemma NotFound(rs: seq<OrderRec>, id: OrderId)
    ensures Find(rs, id) < |rs| <==> id in Ids(rs)
  {
    if Find(rs, id) < |rs| {
      assert rs[Find(rs, id)] in rs;
    }
  }

  // ---------------------------------------------------------------- cancel and modify

  lemma CancelRefused(b: Book, id: OrderId)
    requires id !in Ids(b.resting)
    ensures Cancel(b, id) == (b, false)
  {
    NotFound(b.resting, id);
  }

  /** Cancelling a resting order: it leaves its queue, ends as CANCELLED, and is announced so; every other
      order stays where it was, and a taker can reach exactly the order's remainder less. */
  lemma CancelEffect(b: Book, o: OrderRec)
    requires WellFormed(b) && o in b.resting
    ensures var (b', ok) := Cancel(b, o.id);
            && ok
            && b' == Book(b.symbol, b'.resting, b.gone[o.id := o.(status := Cancelled)], b.nextTradeId,
                          b.log + [OrderEvent(o.(status := Cancelled))])
            && (forall side, p :: QueueAt(b'.resting, side, p) == Drop(QueueAt(b.resting, side, p), o.id))
            && (forall side, limit ::
                  EligibleQty(b'.resting, side, limit) == EligibleQty(b.resting, side, limit) - Offered(o, side, limit))
  {
    hide QueueAt, EligibleQty, Drop, Find, RemoveAt;
    WellFormedIsDistinct(b);
    var k := FoundAt(b.resting, o);
    var rs' := Cancel(b, o.id).0.resting;
    forall side, p
      ensures QueueAt(rs', side, p) == Drop(QueueAt(b.resting, side, p), o.id)
    {
      DropFromQueue(b.resting, o.id, side, p);
    }
    forall side, limit
      ensures EligibleQty(rs', side, limit) == EligibleQty(b.resting, side, limit) - Offered(o, side, limit)
    {
      EligibleWithout(b.resting, k, side, limit);
      EligibleOfOne(o, side, limit);
    }
  }

  /** A modify is accepted if and only if the order rests and the new quantity exceeds what it has traded. */
  lemma ModifyAcceptedIff(b: Book, id: OrderId, price: Price, qty: Quantity)
    requires WellFormed(b) && Accounted(b, Known(b))
    ensures Modify(b, id, price, qty).1 <==> id in Ids(b.resting) && qty > VolumeOf(Tape(b.log), id)
    ensures !Modify(b, id, price, qty).1 ==> Modify(b, id, price, qty).0 == b
  {
    hide VolumeOf, Tape, Ids;
    NotFound(b.resting, id);
  }

  /** An accepted modify: the order leaves its queue and joins the back of the queue at its new price, with
      the new quantity and what it had traded; no callback, no trade, and no other order moves. */
  lemma ModifyEffect(b: Book, o: OrderRec, price: Price, qty: Quantity)
    requires WellFormed(b) && o in b.resting && qty > o.filled
    ensures var (b', ok) := Modify(b, o.id, price, qty);
            var o' := OrderRec(o.id, o.side, o.typ, price, qty, o.filled, o.status);
            && ok && b' == Book(b.symbol, b'.resting, b.gone, b.nextTradeId, b.log)
            && (forall side, p ::
                  QueueAt(b'.resting, side, p) ==
                  Drop(QueueAt(b.resting, side, p), o.id) + if side == o.side && p == price then [o'] else [])
            && (forall side, limit ::
                  EligibleQty(b'.resting, side, limit) ==
                  EligibleQty(b.resting, side, limit) - Offered(o, side, limit) + Offered(o', side, limit))
  {
    hide QueueAt, EligibleQty, Drop, Find, RemoveAt;
    WellFormedIsDistinct(b);
    var k := FoundAt(b.resting, o);
    var o' := OrderRec(o.id, o.side, o.typ, price, qty, o.filled, o.status);
    var rs' := Modify(b, o.id, price, qty).0.resting;
    forall side, p
      ensures QueueAt(rs', side, p) ==
              Drop(QueueAt(b.resting, side, p), o.id) + if side == o.side && p == price then [o'] else []
    {
      QueueConcat(RemoveAt(b.resting, k), [o'], side, p);
      DropFromQueue(b.resting, o.id, side, p);
      OneOrNone(o', side, p);
    }
    forall side, limit
      ensures EligibleQty(rs', side, limit) ==
              EligibleQty(b.resting, side, limit) - Offered(o, side, limit) + Offered(o', side, limit)
    {
      EligibleConcat(RemoveAt(b.resting, k), [o'], side, limit);
      EligibleWithout(b.resting, k, side, limit);
      EligibleOfOne(o, side, limit);
      EligibleOfOne(o', side, limit);
    }
  }

  /** Of two accepted modifies of one order, the last decides alone. */
  lemma LastModifyDecides(b: Book, id: OrderId, price1: Price, qty1: Quantity, price2: Price, qty2: Quantity)
    requires WellFormed(b) && Modify(b, id, price1, qty1).1 && Modify(b, id, price2, qty2).1
    ensures Modify(Modify(b, id, price1, qty1).0, id, price2, qty2) == Modify(b, id, price2, qty2)
  {
    var k, n := Find(b.resting, id), |b.resting| - 1;
    var rs1 := Modify(b, id, price1, qty1).0.resting;
    RemovalKeepsWellFormed(b, k);
    assert rs1[n].id == id;
    FindIs(rs1, n);
    assert RemoveAt(rs1, n) == RemoveAt(b.resting, k);
  }

  // ---------------------------------------------------------------- add

  /** A sweep takes from the other side only. */
  lemma FillSparesOwnSide(b: Book, taker: OrderRec, p: Price)
    requires CanFill(b, taker)
    ensures QueueAt(FillBest(b, taker).book.resting, taker.side, p) == QueueAt(b.resting, taker.side, p)
  {
    hide Best, QueueAt, RemoveAt;
    var k := Best(b.resting, taker.side.Opposite());
    var maker := b.resting[k];
    var o := WithFill(maker, Min(taker.Remaining(), maker.Remaining()));
    QueuesWithoutBest(b.resting, taker.side.Opposite(), o, taker.side, p);
  }

  lemma {:induction false} SweepSparesOwnSide(b: Book, taker: OrderRec, p: Price)
    ensures QueueAt(Sweep(b, taker).book.resting, taker.side, p) == QueueAt(b.resting, taker.side, p)
    decreases |b.resting|, taker.Remaining()
  {
    hide QueueAt, CanFill, FillBest;
    if CanFill(b, taker) {
      FillShrinks(b, taker);
      FillSparesOwnSide(b, taker, p);
      FillKeepsSide(b, taker);
      SweepSparesOwnSide(FillBest(b, taker).book, FillBest(b, taker).order, p);
    }
  }

  lemma FillKeepsSide(b: Book, taker: OrderRec)
    requires CanFill(b, taker)
    ensures FillBest(b, taker).order.side == taker.side
  {
  }

  /** What an added order does to the book: it eats a prefix of the other side's price-time queue, unless it
      is a fill-or-kill order that cannot be filled within its limit; what remains of a limit order joins the
      back of the queue at its price; its own side is otherwise untouched; and it is announced as new first. */
  lemma AddEffect(b: Book, order: OrderRec)
    requires WellFormed(b) && Incoming(b, order)
    ensures var r := Add(b, order);
            var o, other := order.(status := New), order.side.Opposite();
            var q := PriorityQueue(b.resting, other);
            var killed := o.typ.Fok? && EligibleQty(b.resting, o.side, Some(o.price)) < o.qty;
            && r.trades == (if killed then [] else Eat(q, o, b.nextTradeId, b.symbol))
            && PriorityQueue(r.book.resting, other) == (if killed then q else Leftover(q, o))
            && (forall p ::
                  QueueAt(r.book.resting, o.side, p) ==
                  QueueAt(b.resting, o.side, p)
                  + if o.typ.Limit? && r.order.filled < o.qty && p == o.price then [r.order] else [])
            && |r.book.log| > |b.log| && r.book.log[..|b.log| + 1] == b.log + [OrderEvent(o)]
  {
    hide Sweep, EligibleQty, WellFormed, Taking, QueueAt, PriorityQueue, Eat, Leftover;
    var o := order.(status := New);
    var b1 := Notify(b, o);
    NotifyKeepsWellFormed(b, o);
    StartsTaking(b, o);
    SweepEatsPrefix(b1, o);
    SweepKeepsWellFormed(b1, o);
    SweepKeepsLog(b1, o);
    var r := Sweep(b1, o);
    FilledIsDone(r.book, r.order);
    assert b1.log == r.book.log[..|b.log| + 1];
    RestKeepsOther(r, o.side.Opposite());
    forall p
      ensures QueueAt(Add(b, order).book.resting, o.side, p) ==
              QueueAt(b.resting, o.side, p)
              + if o.typ.Limit? && Add(b, order).order.filled < o.qty && p == o.price then [Add(b, order).order] else []
    {
      SweepSparesOwnSide(b1, o, p);
      QueueConcat(r.book.resting, [r.order], o.side, p);
      OneOrNone(r.order, o.side, p);
      if o.typ.Fok? && EligibleQty(b.resting, o.side, Some(o.price)) >= o.qty {
        SweepTakesAllItCan(b1, o, Some(o.price));
      }
    }
  }

  lemma FilledIsDone(b: Book, o: OrderRec)
    requires Taking(b, o)
    ensures o.IsDone() <==> o.filled == o.qty
    ensures o.filled <= o.qty
  {
  }

  lemma {:induction false} SweepKeepsLog(b: Book, taker: OrderRec)
    ensures var r := Sweep(b, taker); |r.book.log| >= |b.log| && r.book.log[..|b.log|] == b.log
    decreases |b.resting|, taker.Remaining()
  {
    if CanFill(b, taker) {
      SweepKeepsLog(FillBest(b, taker).book, FillBest(b, taker).order);
    }
  }

  /** An order resting on one side leaves the other side's priority queue alone. */
  lemma RestKeepsOther(r: Outcome, other: Side)
    requires r.order.side == other.Opposite()
    ensures PriorityQueue(Rest(r).book.resting, other) == PriorityQueue(r.book.resting, other)
  {
    AppendOther(r.book.resting, r.order, other);
  }

  lemma {:induction false} AppendOther(rs: seq<OrderRec>, o: OrderRec, side: Side)
    requires o.side != side
    ensures PriorityQueue(rs + [o], side) == PriorityQueue(rs, side)
    decreases |rs|
  {
    hide Best;
    var all := rs + [o];
    var k := Best(rs, side);
    if k < |rs| {
      BestIsUnique(all, side, k);
      assert RemoveAt(all, k) == RemoveAt(rs, k) + [o];
      AppendOther(RemoveAt(rs, k), o, side);
    } else {
      assert forall i :: 0 <= i < |all| ==> all[i].side != side;
    }
  }

  // ---------------------------------------------------------------- callbacks

  function Filling(o: OrderRec, q: Quantity): OrderRec {
    OrderRec(o.id, o.side, o.typ, o.price, o.qty, o.filled + q,
             if o.filled + q == o.qty then Filled else PartiallyFilled)
  }

  /** What is announced of trades with the orders of a queue in turn: each trade, then its maker, then the
      taker, as they are after it. */
  function Announced(ts: seq<Trade>, queue: seq<OrderRec>, taker: OrderRec): seq<Event> {
    if ts == [] || queue == [] then []
    else
      [TradeEvent(ts[0]), OrderEvent(Filling(queue[0], ts[0].qty)), OrderEvent(Filling(taker, ts[0].qty))]
      + Announced(ts[1..], queue[1..], Filling(taker, ts[0].qty))
  }

  lemma FillAnnounces(b: Book, taker: OrderRec)
    requires CanFill(b, taker)
    ensures var f := FillBest(b, taker);
            var maker := b.resting[Best(b.resting, taker.side.Opposite())];
            var q := Min(taker.qty - taker.filled, maker.qty - maker.filled);
            && |f.trades| == 1 && f.trades[0].qty == q && f.order == Filling(taker, q)
            && f.book.log == b.log + [TradeEvent(f.trades[0]), OrderEvent(Filling(maker, q)), OrderEvent(f.order)]
  {
    hide Best;
  }

  lemma {:induction false} SweepAnnounces(b: Book, taker: OrderRec)
    requires WellFormed(b) && Taking(b, taker)
    ensures var r := Sweep(b, taker);
            r.book.log == b.log + Announced(r.trades, PriorityQueue(b.resting, taker.side.Opposite()), taker)
    decreases |b.resting|, taker.Remaining()
  {
    hide Best, WellFormed, Taking, PriorityQueue, FillBest;
    if CanFill(b, taker) {
      var f := FillBest(b, taker);
      FillShrinks(b, taker);
      FillKeepsWellFormed(b, taker);
      FillContinues(b, taker);
      FillEatsFront(b, taker);
      FillAnnounces(b, taker);
      FillKeepsSide(b, taker);
      SweepAnnounces(f.book, f.order);
      var r := Sweep(f.book, f.order);
      assert (f.trades + r.trades)[1..] == r.trades;
    }
  }

  /** All that is announced of an added order, and in what order: the order as new; each trade, its maker and
      the order itself; and the end of an unfilled market, immediate-or-cancel or killed order. */
  lemma AddAnnounces(b: Book, order: OrderRec)
    requires WellFormed(b) && Incoming(b, order)
    ensures var (r, o) := (Add(b, order), order.(status := New));
            && r.book.log ==
                 b.log + [OrderEvent(o)]
                 + Announced(r.trades, PriorityQueue(b.resting, order.side.Opposite()), o)
                 + (if order.typ.Limit? || r.order.filled == order.qty then [] else [OrderEvent(r.order)])
            && (!order.typ.Limit? && r.order.filled < order.qty ==>
                  r.order.status == if order.typ.Market? then Cancelled else Expired)
  {
    hide Sweep, EligibleQty, WellFormed, Taking, PriorityQueue, Announced;
    var o := order.(status := New);
    var b1 := Notify(b, o);
    NotifyKeepsWellFormed(b, o);
    StartsTaking(b, o);
    SweepAnnounces(b1, o);
    SweepKeepsWellFormed(b1, o);
    var r := Sweep(b1, o);
    FilledIsDone(r.book, r.order);
    NothingAnnounced(PriorityQueue(b.resting, order.side.Opposite()), o);
    if o.typ.Fok? && EligibleQty(b.resting, o.side, Some(o.price)) >= o.qty {
      SweepTakesAllItCan(b1, o, Some(o.price));
    }
  }

  lemma NothingAnnounced(queue: seq<OrderRec>, taker: OrderRec)
    ensures Announced([], queue, taker) == []
  {
  }
}
