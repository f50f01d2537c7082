/**
 The order callbacks are a complete log: an observer who sees nothing but them can rebuild the
 resting orders, their remainders and their queueing order. A modify is the one operation that
 makes no callback, so it is the one that can make the observer's copy wrong.
 */
module CallbackLog {
  import opened Types
  import opened FlatBook
  import opened BookInvariants
  import opened PriceLevels
  import opened Matching
  import opened QueueEquivalence

  /** The observer's rule: an order is in the book while its last status is New or PartiallyFilled,
      and it queues where it was first seen. */
  function Observe(rs: seq<OrderRec>, e: Event): seq<OrderRec> {
    match e
    case TradeEvent(_) => rs
    case OrderEvent(o) =>
      var k := Find(rs, o.id);
      if o.status.New? || o.status.PartiallyFilled? then
        (if k < |rs| then rs[k := o] else rs + [o])
      else
        (if k < |rs| then RemoveAt(rs, k) else rs)
  }

  function Replay(log: seq<Event>): seq<OrderRec> {
    if log == [] then [] else Observe(Replay(log[..|log| - 1]), log[|log| - 1])
  }

  lemma ReplayAppend(log: seq<Event>, e: Event)
    ensures Replay(log + [e]) == Observe(Replay(log), e)
  {
  }

  /** While an order sweeps, the observer has it queued behind the book, unless it is done. */
  function BehindBook(b: Book, o: OrderRec): seq<OrderRec> {
    if o.IsDone() then b.resting else b.resting + [o]
  }

  lemma ObserveLast(rs: seq<OrderRec>, o: OrderRec, o': OrderRec)
    requires o'.id == o.id && forall i :: 0 <= i < |rs| ==> rs[i].id != o.id
    ensures o'.IsDone() ==> Observe(rs + [o], OrderEvent(o')) == rs
    ensures !o'.IsDone() && !o'.status.Pending? ==> Observe(rs + [o], OrderEvent(o')) == rs + [o']
  {
    FindIs(rs + [o], |rs|);
    assert RemoveAt(rs + [o], |rs|) == rs;
  }

  lemma ObserveAt(rs: seq<OrderRec>, tail: seq<OrderRec>, k: nat, o': OrderRec)
    requires k < |rs| && Distinct(rs) && o'.id == rs[k].id && !o'.status.Pending?
    ensures Observe(rs + tail, OrderEvent(o')) == RestingAfter(rs, k, o') + tail
  {
    var all := rs + tail;
    assert all[k] == rs[k];
    FindIs(all, k);
    assert RemoveAt(all, k) == RemoveAt(rs, k) + tail;
    assert all[k := o'] == rs[k := o'] + tail;
  }

  lemma FillReplays(b: Book, taker: OrderRec)
    requires WellFormed(b) && Taking(b, taker) && CanFill(b, taker) && Replay(b.log) == BehindBook(b, taker)
    ensures var f := FillBest(b, taker); Replay(f.book.log) == BehindBook(f.book, f.order)
  {
    hide Observe, Replay, Find;
    var k := Best(b.resting, taker.side.Opposite());
    assert Live(b.resting[k]);
    var f := FillBest(b, taker);
    FillKeepsWellFormed(b, taker);
    var e := f.book.log[|b.log|..];
    assert f.book.log == ((b.log + [e[0]]) + [e[1]]) + [e[2]];
    ReplayAppend(b.log, e[0]);
    ReplayAppend(b.log + [e[0]], e[1]);
    ReplayAppend((b.log + [e[0]]) + [e[1]], e[2]);
    TradesGoUnobserved(b.resting + [taker], e[0]);
    ObserveAt(b.resting, [taker], k, e[1].order);
    ObserveLast(f.book.resting, taker, f.order);
  }

  lemma TradesGoUnobserved(rs: seq<OrderRec>, e: Event)
    requires e.TradeEvent?
    ensures Observe(rs, e) == rs
  {
  }

  lemma {:induction false} SweepReplays(b: Book, taker: OrderRec)
    requires WellFormed(b) && Taking(b, taker) && Replay(b.log) == BehindBook(b, taker)
    ensures var r := Sweep(b, taker); Replay(r.book.log) == BehindBook(r.book, r.order)
    decreases |b.resting|, taker.Remaining()
  {
    hide Replay, WellFormed, Taking, BehindBook;
    if CanFill(b, taker) {
      var f := FillBest(b, taker);
      FillKeepsWellFormed(b, taker);
      FillContinues(b, taker);
      FillReplays(b, taker);
      SweepReplays(f.book, f.order);
    }
  }

  lemma EndReplays(b: Book, o: OrderRec, status: OrderStatus)
    requires Taking(b, o) && !o.IsDone() && Replay(b.log) == b.resting + [o] && status.IsDone()
    ensures Replay(Notify(b, o.(status := status)).log) == b.resting
  {
    ReplayAppend(b.log, OrderEvent(o.(status := status)));
    ObserveLast(b.resting, o, o.(status := status));
  }

  lemma AddReplays(b: Book, order: OrderRec)
    requires WellFormed(b) && Incoming(b, order) && Replay(b.log) == b.resting
    ensures var b' := Add(b, order).book; Replay(b'.log) == b'.resting
  {
    hide Sweep, EligibleQty, WellFormed, Replay;
    var o := order.(status := New);
    var b1 := Notify(b, o);
    ReplayAppend(b.log, OrderEvent(o));
    NotifyKeepsWellFormed(b, o);
    SweepReplays(b1, o);
    SweepKeepsWellFormed(b1, o);
    var r := Sweep(b1, o);
    match o.typ
    case Limit =>
    case Market =>
      if r.order.Remaining() > 0 { EndReplays(r.book, r.order, Cancelled); }
    case Ioc =>
      if r.order.Remaining() > 0 { EndReplays(r.book, r.order, Expired); }
    case Fok =>
      EndReplays(b1, o, Expired);
      if EligibleQty(b1.resting, o.side, Some(o.price)) >= o.qty {
        SweepTakesAllItCan(b1, o, Some(o.price));
      }
  }

  lemma CancelReplays(b: Book, id: OrderId)
    requires WellFormed(b) && Replay(b.log) == b.resting
    ensures var b' := Cancel(b, id).0; Replay(b'.log) == b'.resting
  {
  }

  /** Any run of adds and cancels: replaying the callbacks gives the resting list itself. */
  lemma {:induction false} CallbacksAreComplete(b: Book, ops: seq<Op>)
    requires WellFormed(b) && LegalRun(b, ops) && Replay(b.log) == b.resting
    requires forall i :: 0 <= i < |ops| ==> !ops[i].ModifyOp?
    ensures Replay(Run(b, ops).log) == Run(b, ops).resting
    decreases |ops|
  {
    hide Replay, WellFormed, Add, Cancel;
    if ops != [] {
      match ops[0] {
        case AddOp(o) => AddReplays(b, o);
        case CancelOp(id) => CancelReplays(b, id);
      }
      StepKeepsWellFormed(b, ops[0]);
      CallbacksAreComplete(Step(b, ops[0]), ops[1..]);
    }
  }

  /** Every queue after an order left the list and a version of it with a new price and quantity
      joined at the end. */
  lemma QueueAfterModify(rs: seq<OrderRec>, k: nat, o: OrderRec, side: Side, p: Price)
    requires k < |rs| && o.side == rs[k].side
    ensures var a, c := QueueAt(rs[..k], side, p), QueueAt(rs[k + 1..], side, p);
            && QueueAt(rs, side, p) == a + (if side == o.side && p == rs[k].price then [rs[k]] else []) + c
            && QueueAt(RemoveAt(rs, k) + [o], side, p) == a + c + (if side == o.side && p == o.price then [o] else [])
  {
    QueueSplit(rs, k, side, p);
    QueueConcat(RemoveAt(rs, k), [o], side, p);
  }

  /** A modify makes no callback. When it is accepted, an observer who was right stays right if and
      only if nothing changed at all: same price, same quantity, and nobody queued behind the order. */
  lemma ModifyEscapesCallbacks(b: Book, id: OrderId, price: Price, qty: Quantity)
    requires WellFormed(b) && SameQueues(Replay(b.log), b.resting) && Modify(b, id, price, qty).1
    ensures var b' := Modify(b, id, price, qty).0;
            var k := Find(b.resting, id);
            var o := b.resting[k];
            SameQueues(Replay(b'.log), b'.resting) <==>
              price == o.price && qty == o.qty && QueueAt(b.resting[k + 1..], o.side, o.price) == []
  {
    hide WellFormed, Find, QueueAt, Replay, RemoveAt, Distinct;
    var k := Find(b.resting, id);
    var o := b.resting[k];
    var o' := o.(price := price, qty := qty);
    var rs' := Modify(b, id, price, qty).0.resting;
    forall side, p
      ensures var a, c := QueueAt(b.resting[..k], side, p), QueueAt(b.resting[k + 1..], side, p);
              && QueueAt(b.resting, side, p) == a + (if side == o.side && p == o.price then [o] else []) + c
              && QueueAt(rs', side, p) == a + c + (if side == o.side && p == price then [o'] else [])
    {
      QueueAfterModify(b.resting, k, o', side, p);
    }
    var a, c := QueueAt(b.resting[..k], o.side, o.price), QueueAt(b.resting[k + 1..], o.side, o.price);
    if SameQueues(Replay(b.log), rs') {
      assert QueueAt(b.resting, o.side, o.price) == QueueAt(rs', o.side, o.price);
      assert |a + [o] + c| == |a| + 1 + |c|;
      assert price == o.price;
      WellFormedIsDistinct(b);
      NobodyTwice(b.resting, k);
      LastFirst(a, c, o, o');
    }
    assert c == [] ==> a + c == a && a + [o] + c == a + [o];
  }

  lemma NobodyTwice(rs: seq<OrderRec>, k: nat)
    requires Distinct(rs) && k < |rs|
    ensures var c := QueueAt(rs[k + 1..], rs[k].side, rs[k].price); c == [] || c[|c| - 1].id != rs[k].id
  {
    var c := QueueAt(rs[k + 1..], rs[k].side, rs[k].price);
    if c != [] {
      var i := QueueMember(rs[k + 1..], rs[k].side, rs[k].price, |c| - 1);
      assert rs[k + 1 + i] == c[|c| - 1];
    }
  }

  lemma LastFirst(a: seq<OrderRec>, c: seq<OrderRec>, o: OrderRec, o': OrderRec)
    requires a + [o] + c == a + c + [o'] && o'.id == o.id && (c == [] || c[|c| - 1].id != o.id)
    ensures c == [] && o == o'
  {
    var l, r := a + [o] + c, a + c + [o'];
    assert l[|l| - 1] == r[|r| - 1] == o';
    LastOf(a, c, o);
  }

  lemma LastOf(a: seq<OrderRec>, c: seq<OrderRec>, o: OrderRec)
    ensures var l := a + [o] + c; l[|l| - 1] == if c == [] then o else c[|c| - 1]
  {
  }

  // ---------------------------------------------------------------- when the observer is right

  /** The observer holds every order and remainder, in the queueing order of each side and price. */
  ghost predicate ObserverRight(b: Book) {
    SameQueues(Replay(b.log), b.resting)
  }

  lemma {:induction false} ReplayIsDistinct(log: seq<Event>)
    ensures Distinct(Replay(log))
  {
    if log != [] {
      ReplayIsDistinct(log[..|log| - 1]);
      ObserveKeepsDistinct(Replay(log[..|log| - 1]), log[|log| - 1]);
    }
  }

  lemma ObserveKeepsDistinct(rs: seq<OrderRec>, e: Event)
    requires Distinct(rs)
    ensures Distinct(Observe(rs, e))
  {
  }

  /** The book as the observer sees it: the same book, listed in another order across queues. */
  lemma ObservedBook(b: Book)
    requires WellFormed(b) && ObserverRight(b)
    ensures var seen := b.(resting := Replay(b.log));
            WellFormed(seen) && SameBook(seen, b) && Replay(seen.log) == seen.resting
  {
    var seen := b.(resting := Replay(b.log));
    ReplayIsDistinct(b.log);
    forall i | 0 <= i < |seen.resting|
      ensures Live(seen.resting[i]) && seen.resting[i].id !in b.gone
    {
      var j := SameMembers(seen.resting, b.resting, i);
    }
  }

  /** Adds and cancels make every callback the observer needs, in whatever way it lists the orders. */
  lemma AddOrCancelObserved(b: Book, op: Op)
    requires WellFormed(b) && LegalOp(b, op) && ObserverRight(b) && !op.ModifyOp?
    ensures ObserverRight(Step(b, op))
  {
    hide WellFormed, Replay, Add, Cancel, Incoming, SameQueues;
    var seen := b.(resting := Replay(b.log));
    ObservedBook(b);
    if op.AddOp? {
      BackToSeen(seen, b);
      SameIncoming(b, seen, op.order);
      AddReplays(seen, op.order);
    } else {
      CancelReplays(seen, op.id);
    }
    SameStep(seen, b, op);
    SeenSame(Step(seen, op), Step(b, op));
  }

  lemma BackToSeen(b: Book, b': Book)
    requires SameBook(b, b')
    ensures SameBook(b', b)
  {
    SameQueuesBack(b.resting, b'.resting);
  }

  lemma SeenSame(seen: Book, b: Book)
    requires SameBook(seen, b) && Replay(seen.log) == seen.resting
    ensures ObserverRight(b)
  {
  }

  /** A modify that is refused, or changes nothing for an order nobody is queued behind. */
  ghost predicate Harmless(b: Book, op: Op) {
    op.ModifyOp? && Modify(b, op.id, op.price, op.qty).1 ==>
      var k := Find(b.resting, op.id);
      var o := b.resting[k];
      op.price == o.price && op.qty == o.qty && QueueAt(b.resting[k + 1..], o.side, o.price) == []
  }

  lemma StepObservedIff(b: Book, op: Op)
    requires WellFormed(b) && LegalOp(b, op) && ObserverRight(b)
    ensures ObserverRight(Step(b, op)) <==> Harmless(b, op)
  {
    hide WellFormed, Replay, Add, Cancel, SameQueues, QueueAt;
    match op
    case ModifyOp(id, price, qty) =>
      if Modify(b, id, price, qty).1 {
        ModifyEscapesCallbacks(b, id, price, qty);
      }
    case _ => AddOrCancelObserved(b, op);
  }

  ghost predicate RightThroughout(b: Book, ops: seq<Op>)
    decreases |ops|
  {
    ObserverRight(b) && (ops != [] ==> RightThroughout(Step(b, ops[0]), ops[1..]))
  }

  ghost predicate AllHarmless(b: Book, ops: seq<Op>)
    decreases |ops|
  {
    ops != [] ==> Harmless(b, ops[0]) && AllHarmless(Step(b, ops[0]), ops[1..])
  }

  lemma {:induction false} RightIffHarmless(b: Book, ops: seq<Op>)
    requires WellFormed(b) && LegalRun(b, ops) && ObserverRight(b)
    ensures RightThroughout(b, ops) <==> AllHarmless(b, ops)
    decreases |ops|
  {
    hide WellFormed, ObserverRight, Harmless, Step, LegalOp;
    if ops != [] {
      StepObservedIff(b, ops[0]);
      StepKeepsWellFormed(b, ops[0]);
      if ObserverRight(Step(b, ops[0])) {
        RightIffHarmless(Step(b, ops[0]), ops[1..]);
      } else {
        NotRightNow(Step(b, ops[0]), ops[1..]);
      }
    }
  }

  lemma NotRightNow(b: Book, ops: seq<Op>)
    requires !ObserverRight(b)
    ensures !RightThroughout(b, ops)
  {
  }

  /** For every run from a new book, modifies included: an observer of the order callbacks is right after
      every operation if and only if every modify was refused or harmless. */
  lemma CallbacksSufficeIff(symbol: string, ops: seq<Op>)
    requires LegalRun(Empty(symbol), ops)
    ensures RightThroughout(Empty(symbol), ops) <==> AllHarmless(Empty(symbol), ops)
  {
    hide LegalRun, RightThroughout, AllHarmless;
    RightIffHarmless(Empty(symbol), ops);
  }

  /** A run after which the observer is wrong, though the modify kept both price and quantity: the
      order lost its place to the one queued behind it. */
  lemma ObserverCanBeWrong()
    ensures exists ops :: LegalRun(Empty(""), ops)
              && !SameQueues(Replay(Run(Empty(""), ops).log), Run(Empty(""), ops).resting)
  {
    hide Add, Modify, LegalRun, Run, Replay, SameQueues;
    var first := OrderRec(1, Buy, Limit, 100, 5, 0, New);
    var second := OrderRec(2, Buy, Limit, 100, 5, 0, New);
    TwoBids(first, second);
    RunOfThree(Empty(""), AddOp(first), AddOp(second), ModifyOp(1, 100, 5));
  }

  lemma TwoBids(first: OrderRec, second: OrderRec)
    requires first == OrderRec(1, Buy, Limit, 100, 5, 0, New) && second == OrderRec(2, Buy, Limit, 100, 5, 0, New)
    ensures var b1 := Add(Empty(""), first).book;
            var b2 := Add(b1, second).book;
            && Incoming(Empty(""), first) && Incoming(b1, second)
            && var b3 := Modify(b2, 1, 100, 5).0; !SameQueues(Replay(b3.log), b3.resting)
  {
    hide Add, Replay, SameQueues;
    var b1 := Add(Empty(""), first).book;
    var b2 := Add(b1, second).book;
    UnmatchedRests(Empty(""), first);
    assert b1.resting == [first];
    UnmatchedRests(b1, second);
    assert b2.resting == [first, second];
    assert Replay([]) == [] by { ReplayNothing(); }
    AddReplays(Empty(""), first);
    AddKeepsWellFormed(Empty(""), first);
    AddReplays(b1, second);
    AddKeepsWellFormed(b1, second);
    SameAsItself(b2);
    assert QueueAt(b2.resting[1..], Buy, 100) == [second];
    ModifyEscapesCallbacks(b2, 1, 100, 5);
  }

  lemma ReplayNothing()
    ensures Replay([]) == []
  {
  }

  lemma SameAsItself(b: Book)
    requires Replay(b.log) == b.resting
    ensures SameQueues(Replay(b.log), b.resting)
  {
  }
}
