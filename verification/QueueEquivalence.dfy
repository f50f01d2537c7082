/**
 The engine keeps a queue per side and price, and no order across queues. Nor does it need one: two flat
 lists with the same queues make the same trades and callbacks, and keep the same queues, for ever.
 */
module QueueEquivalence {
  import opened Types
  import opened FlatBook
  import opened BookInvariants
  import opened PriceLevels

  /** What can be compared with the engine: the queue of every side and price. */
  ghost predicate SameQueues(rs: seq<OrderRec>, rs': seq<OrderRec>) {
    forall side, p :: QueueAt(rs, side, p) == QueueAt(rs', side, p)
  }

  ghost predicate SameBook(b: Book, b': Book) {
    && b' == b.(resting := b'.resting)
    && SameQueues(b.resting, b'.resting)
  }

  /** The same queues hold the same orders. */
  lemma SameMembers(rs: seq<OrderRec>, rs': seq<OrderRec>, i: nat) returns (j: nat)
    requires SameQueues(rs, rs') && i < |rs|
    ensures j < |rs'| && rs'[j] == rs[i]
  {
    var side, p := rs[i].side, rs[i].price;
    QueueSplit(rs, i, side, p);
    QueueOfOne(rs[i]);
    var n := |QueueAt(rs[..i], side, p)|;
    assert QueueAt(rs, side, p)[n] == rs[i];
    j := QueueMember(rs', side, p, n);
  }

  // ---------------------------------------------------------------- the best order

  lemma SameBestIfAny(rs: seq<OrderRec>, rs': seq<OrderRec>, side: Side)
    requires SameQueues(rs, rs') && Best(rs, side) < |rs|
    ensures Best(rs', side) < |rs'| && rs'[Best(rs', side)] == rs[Best(rs, side)]
  {
    hide Best, QueueAt;
    var k := Best(rs, side);
    var p := rs[k].price;
    BestHeadsQueue(rs, side);
    forall i | 0 <= i < |rs'| && rs'[i].side == side
      ensures !Better(side, rs'[i].price, p)
    {
      var j := SameMembers(rs', rs, i);
    }
    BestPriceIs(rs', side, p);
    BestHeadsQueue(rs', side);
    assert QueueAt(rs, side, p)[0] == QueueAt(rs', side, p)[0];
  }

  lemma SameBest(rs: seq<OrderRec>, rs': seq<OrderRec>, side: Side)
    requires SameQueues(rs, rs')
    ensures Best(rs, side) < |rs| <==> Best(rs', side) < |rs'|
    ensures Best(rs, side) < |rs| ==> rs'[Best(rs', side)] == rs[Best(rs, side)]
  {
    hide Best, SameQueues;
    SameQueuesBack(rs, rs');
    if Best(rs, side) < |rs| {
      SameBestIfAny(rs, rs', side);
    }
    if Best(rs', side) < |rs'| {
      SameBestIfAny(rs', rs, side);
    }
  }

  lemma SameQueuesBack(rs: seq<OrderRec>, rs': seq<OrderRec>)
    requires SameQueues(rs, rs')
    ensures SameQueues(rs', rs)
  {
  }

  /** Every queue after the best order was taken out, or replaced by a version of it. */
  lemma QueuesWithoutBest(rs: seq<OrderRec>, side: Side, o: OrderRec, s: Side, p: Price)
    requires Best(rs, side) < |rs| && o.side == side && o.price == rs[Best(rs, side)].price
    ensures var k := Best(rs, side);
            var q, c := QueueAt(rs, s, p), QueueAt(rs[k + 1..], s, p);
            if s == side && p == o.price
            then q == [rs[k]] + c && QueueAt(RemoveAt(rs, k), s, p) == c && QueueAt(rs[k := o], s, p) == [o] + c
            else QueueAt(RemoveAt(rs, k), s, p) == q && QueueAt(rs[k := o], s, p) == q
  {
    hide Best, QueueAt, RemoveAt;
    var k := Best(rs, side);
    var a, c := QueueAt(rs[..k], s, p), QueueAt(rs[k + 1..], s, p);
    BestHeadsQueue(rs, side);
    QueueSplit(rs, k, s, p);
    QueueUpdate(rs, k, o, s, p);
    OneOrNone(rs[k], s, p);
    OneOrNone(o, s, p);
    if s == side && p == o.price {
      assert [] + [o] + c == [o] + c;
    } else {
      assert a + [] + c == a + c;
    }
  }

  lemma OneOrNone(o: OrderRec, s: Side, p: Price)
    ensures QueueAt([o], s, p) == if s == o.side && p == o.price then [o] else []
  {
  }

  lemma SameTails(x: OrderRec, c: seq<OrderRec>, x': OrderRec, c': seq<OrderRec>)
    requires [x] + c == [x'] + c'
    ensures c == c'
  {
    assert ([x] + c)[1..] == c && ([x'] + c')[1..] == c';
  }

  lemma SameQueueAt(rs: seq<OrderRec>, rs': seq<OrderRec>, s: Side, p: Price)
    requires SameQueues(rs, rs')
    ensures QueueAt(rs, s, p) == QueueAt(rs', s, p)
  {
  }

  lemma SameWithoutBest(rs: seq<OrderRec>, rs': seq<OrderRec>, side: Side, o: OrderRec, s: Side, p: Price)
    requires SameQueues(rs, rs') && Best(rs, side) < |rs| && Best(rs', side) < |rs'|
    requires o.side == side && o.price == rs[Best(rs, side)].price == rs'[Best(rs', side)].price
    ensures QueueAt(RemoveAt(rs, Best(rs, side)), s, p) == QueueAt(RemoveAt(rs', Best(rs', side)), s, p)
    ensures QueueAt(rs[Best(rs, side) := o], s, p) == QueueAt(rs'[Best(rs', side) := o], s, p)
  {
    hide Best, QueueAt, RemoveAt, SameQueues;
    var k, k' := Best(rs, side), Best(rs', side);
    QueuesWithoutBest(rs, side, o, s, p);
    QueuesWithoutBest(rs', side, o, s, p);
    SameQueueAt(rs, rs', s, p);
    if s == side && p == o.price {
      SameTails(rs[k], QueueAt(rs[k + 1..], s, p), rs'[k'], QueueAt(rs'[k' + 1..], s, p));
    }
  }

  lemma SameAfterFill(rs: seq<OrderRec>, rs': seq<OrderRec>, side: Side, o: OrderRec)
    requires SameQueues(rs, rs') && Best(rs, side) < |rs| && Best(rs', side) < |rs'|
    requires o.side == side && o.price == rs[Best(rs, side)].price == rs'[Best(rs', side)].price
    ensures SameQueues(RemoveAt(rs, Best(rs, side)), RemoveAt(rs', Best(rs', side)))
    ensures SameQueues(rs[Best(rs, side) := o], rs'[Best(rs', side) := o])
  {
    hide Best, QueueAt, RemoveAt;
    forall s, p
      ensures QueueAt(RemoveAt(rs, Best(rs, side)), s, p) == QueueAt(RemoveAt(rs', Best(rs', side)), s, p)
    {
      SameWithoutBest(rs, rs', side, o, s, p);
    }
    var us, us' := rs[Best(rs, side) := o], rs'[Best(rs', side) := o];
    forall s, p
      ensures QueueAt(us, s, p) == QueueAt(us', s, p)
    {
      SameWithoutBest(rs, rs', side, o, s, p);
    }
  }

  // ---------------------------------------------------------------- sweeping

  lemma SameFill(b: Book, b': Book, taker: OrderRec)
    requires SameBook(b, b')
    ensures CanFill(b, taker) <==> CanFill(b', taker)
    ensures CanFill(b, taker) ==>
              var f, f' := FillBest(b, taker), FillBest(b', taker);
              SameBook(f.book, f'.book) && f'.order == f.order && f'.trades == f.trades
  {
    hide Best, SameQueues, RemoveAt, GoneAfter;
    var side := taker.side.Opposite();
    SameBest(b.resting, b'.resting, side);
    if CanFill(b, taker) {
      var maker := b.resting[Best(b.resting, side)];
      SameAfterFill(b.resting, b'.resting, side, WithFill(maker, Min(taker.Remaining(), maker.Remaining())));
    }
  }

  lemma {:induction false} SameSweep(b: Book, b': Book, taker: OrderRec)
    requires SameBook(b, b')
    ensures var r, r' := Sweep(b, taker), Sweep(b', taker);
            SameBook(r.book, r'.book) && r'.order == r.order && r'.trades == r.trades
    decreases |b.resting|, taker.Remaining()
  {
    hide SameBook, CanFill, FillBest;
    SameFill(b, b', taker);
    if CanFill(b, taker) {
      FillShrinks(b, taker);
      SameSweep(FillBest(b, taker).book, FillBest(b', taker).book, FillBest(b, taker).order);
    }
  }

  /** A limit reaches the same quantity: take the best orders off both lists, one after the other. */
  lemma {:induction false} SameEligible(rs: seq<OrderRec>, rs': seq<OrderRec>, side: Side, limit: Option<Price>)
    requires SameQueues(rs, rs')
    ensures EligibleQty(rs, side, limit) == EligibleQty(rs', side, limit)
    decreases |rs|
  {
    hide Best, SameQueues, EligibleQty;
    var other := side.Opposite();
    var k, k' := Best(rs, other), Best(rs', other);
    SameBest(rs, rs', other);
    if k < |rs| {
      SameAfterFill(rs, rs', other, rs[k]);
      SameEligible(RemoveAt(rs, k), RemoveAt(rs', k'), side, limit);
      EligibleWithout(rs, k, side, limit);
      EligibleWithout(rs', k', side, limit);
    } else {
      NothingEligible(rs, side, limit);
      NothingEligible(rs', side, limit);
    }
  }

  lemma EligibleWithout(rs: seq<OrderRec>, k: nat, side: Side, limit: Option<Price>)
    requires k < |rs|
    ensures EligibleQty(rs, side, limit)
              == EligibleQty(RemoveAt(rs, k), side, limit) + EligibleQty([rs[k]], side, limit)
  {
    EligibleSplit(rs, k, side, limit);
    EligibleConcat(rs[..k], rs[k + 1..], side, limit);
  }

  // ---------------------------------------------------------------- operations

  lemma SameEnds(r: Outcome, r': Outcome)
    requires SameBook(r.book, r'.book) && r'.order == r.order && r'.trades == r.trades
    ensures SameBook(Retire(r).book, Retire(r').book)
    ensures SameBook(Rest(r).book, Rest(r').book)
    ensures forall o :: SameBook(Notify(r.book, o), Notify(r'.book, o))
  {
    forall s, p
      ensures QueueAt(r.book.resting + [r.order], s, p) == QueueAt(r'.book.resting + [r.order], s, p)
    {
      QueueConcat(r.book.resting, [r.order], s, p);
      QueueConcat(r'.book.resting, [r.order], s, p);
    }
  }

  lemma SameAdd(b: Book, b': Book, order: OrderRec)
    requires SameBook(b, b')
    ensures var r, r' := Add(b, order), Add(b', order);
            SameBook(r.book, r'.book) && r'.order == r.order && r'.trades == r.trades
  {
    hide SameBook, Sweep, EligibleQty, Retire, Rest, Notify;
    var o := order.(status := New);
    SameEnds(Outcome(b, o, []), Outcome(b', o, []));
    var b1, b1' := Notify(b, o), Notify(b', o);
    SameSweep(b1, b1', o);
    var r, r' := Sweep(b1, o), Sweep(b1', o);
    SameEnds(r, r');
    SameLists(r, r');
    match o.typ
    case Limit =>
    case Market =>
      SameEnds(EndRemainder(r, Cancelled), EndRemainder(r', Cancelled));
      SameLists(EndRemainder(r, Cancelled), EndRemainder(r', Cancelled));
    case Ioc =>
      SameEnds(EndRemainder(r, Expired), EndRemainder(r', Expired));
      SameLists(EndRemainder(r, Expired), EndRemainder(r', Expired));
    case Fok =>
      var x := o.(status := Expired);
      SameListsOf(b1, b1');
      SameEligible(b1.resting, b1'.resting, o.side, Some(o.price));
      SameEnds(Outcome(b1, x, []), Outcome(b1', x, []));
      SameEnds(Outcome(Notify(b1, x), x, []), Outcome(Notify(b1', x), x, []));
      SameLists(Outcome(Notify(b1, x), x, []), Outcome(Notify(b1', x), x, []));
  }

  lemma SameListsOf(b: Book, b': Book)
    requires SameBook(b, b')
    ensures SameQueues(b.resting, b'.resting)
  {
  }

  lemma SameLists(r: Outcome, r': Outcome)
    ensures Retire(r).order == Rest(r).order == r.order && Retire(r).trades == Rest(r).trades == r.trades
    ensures Retire(r').order == Rest(r').order == r'.order && Retire(r').trades == Rest(r').trades == r'.trades
  {
  }

  lemma SameFind(rs: seq<OrderRec>, rs': seq<OrderRec>, id: OrderId)
    requires SameQueues(rs, rs') && Distinct(rs) && Distinct(rs')
    ensures var k, k' := Find(rs, id), Find(rs', id);
            && (k < |rs| <==> k' < |rs'|)
            && (k < |rs| ==> rs'[k'] == rs[k] && SameQueues(RemoveAt(rs, k), RemoveAt(rs', k')))
  {
    var k, k' := Find(rs, id), Find(rs', id);
    if k < |rs| {
      var j := SameMembers(rs, rs', k);
    }
    if k' < |rs'| {
      SameQueuesBack(rs, rs');
      var j := SameMembers(rs', rs, k');
    }
    if k < |rs| {
      assert rs'[k'] == rs[k];
      SameAfterRemoval(rs, rs', k, k');
    }
  }

  lemma SameAfterRemoval(rs: seq<OrderRec>, rs': seq<OrderRec>, k: nat, k': nat)
    requires SameQueues(rs, rs') && Distinct(rs) && Distinct(rs') && k < |rs| && k' < |rs'| && rs'[k'] == rs[k]
    ensures SameQueues(RemoveAt(rs, k), RemoveAt(rs', k'))
  {
    hide Distinct, QueueAt, RemoveAt;
    forall s, p
      ensures QueueAt(RemoveAt(rs, k), s, p) == QueueAt(RemoveAt(rs', k'), s, p)
    {
      var a, c := QueueAt(rs[..k], s, p), QueueAt(rs[k + 1..], s, p);
      var a', c' := QueueAt(rs'[..k'], s, p), QueueAt(rs'[k' + 1..], s, p);
      QueueSplit(rs, k, s, p);
      QueueSplit(rs', k', s, p);
      OneOrNone(rs[k], s, p);
      if QueueAt([rs[k]], s, p) != [] {
        NotBefore(rs, k, s, p);
        NotBefore(rs', k', s, p);
        SameCut(a, a', rs[k], c, c');
      } else {
        assert a + [] + c == a + c && a' + [] + c' == a' + c';
      }
    }
  }

  lemma NotBefore(rs: seq<OrderRec>, k: nat, s: Side, p: Price)
    requires k < |rs| && Distinct(rs)
    ensures forall i :: 0 <= i < |QueueAt(rs[..k], s, p)| ==> QueueAt(rs[..k], s, p)[i].id != rs[k].id
  {
    forall i | 0 <= i < |QueueAt(rs[..k], s, p)|
      ensures QueueAt(rs[..k], s, p)[i].id != rs[k].id
    {
      var m := QueueMember(rs[..k], s, p, i);
    }
  }

  /** Two ways of splitting one queue at an order that stands in it once are the same way. */
  lemma SameCut(a: seq<OrderRec>, a': seq<OrderRec>, o: OrderRec, c: seq<OrderRec>, c': seq<OrderRec>)
    requires a + [o] + c == a' + [o] + c'
    requires forall i :: 0 <= i < |a| ==> a[i].id != o.id
    requires forall i :: 0 <= i < |a'| ==> a'[i].id != o.id
    ensures a == a' && c == c'
  {
    var q, q' := a + [o] + c, a' + [o] + c';
    assert q[|a|] == o && q'[|a'|] == o;
    assert |a| == |a'|;
    assert a == q[..|a|] && a' == q'[..|a'|];
    assert c == q[|a| + 1..] && c' == q'[|a'| + 1..];
  }

  lemma SameAppend(rs: seq<OrderRec>, rs': seq<OrderRec>, o: OrderRec)
    requires SameQueues(rs, rs')
    ensures SameQueues(rs + [o], rs' + [o])
  {
    forall s, p
      ensures QueueAt(rs + [o], s, p) == QueueAt(rs' + [o], s, p)
    {
      QueueConcat(rs, [o], s, p);
      QueueConcat(rs', [o], s, p);
    }
  }

  lemma SameCancel(b: Book, b': Book, id: OrderId)
    requires SameBook(b, b') && WellFormed(b) && WellFormed(b')
    ensures SameBook(Cancel(b, id).0, Cancel(b', id).0) && Cancel(b, id).1 == Cancel(b', id).1
  {
    hide SameQueues, RemoveAt, Find;
    SameFind(b.resting, b'.resting, id);
  }

  lemma SameModify(b: Book, b': Book, id: OrderId, price: Price, qty: Quantity)
    requires SameBook(b, b') && WellFormed(b) && WellFormed(b')
    ensures SameBook(Modify(b, id, price, qty).0, Modify(b', id, price, qty).0)
    ensures Modify(b, id, price, qty).1 == Modify(b', id, price, qty).1
  {
    hide SameQueues, RemoveAt, Find;
    SameFind(b.resting, b'.resting, id);
    var k, k' := Find(b.resting, id), Find(b'.resting, id);
    if k < |b.resting| {
      SameAppend(RemoveAt(b.resting, k), RemoveAt(b'.resting, k'), b.resting[k].(price := price, qty := qty));
    }
  }

  lemma SameStep(b: Book, b': Book, op: Op)
    requires SameBook(b, b') && WellFormed(b) && WellFormed(b')
    ensures SameBook(Step(b, op), Step(b', op))
  {
    hide SameBook, WellFormed, Add, Cancel, Modify;
    match op
    case AddOp(o) => SameAdd(b, b', o);
    case CancelOp(id) => SameCancel(b, b', id);
    case ModifyOp(id, price, qty) => SameModify(b, b', id, price, qty);
  }

  lemma SameIncoming(b: Book, b': Book, o: OrderRec)
    requires SameBook(b, b') && Incoming(b, o)
    ensures Incoming(b', o)
  {
    SameQueuesBack(b.resting, b'.resting);
    forall i | 0 <= i < |b'.resting|
      ensures b'.resting[i].id != o.id
    {
      var j := SameMembers(b'.resting, b.resting, i);
    }
  }

  /** For every run: the same trades, the same callbacks, the same queues, in whatever order across
      queues the resting orders are listed. */
  lemma {:induction false} QueuesDecideEverything(b: Book, b': Book, ops: seq<Op>)
    requires SameBook(b, b') && WellFormed(b) && WellFormed(b') && LegalRun(b, ops)
    ensures LegalRun(b', ops) && SameBook(Run(b, ops), Run(b', ops))
    decreases |ops|
  {
    hide SameBook, WellFormed, Step, Incoming;
    if ops != [] {
      if ops[0].AddOp? {
        SameIncoming(b, b', ops[0].order);
      }
      SameStep(b, b', ops[0]);
      StepKeepsWellFormed(b, ops[0]);
      StepKeepsWellFormed(b', ops[0]);
      QueuesDecideEverything(Step(b, ops[0]), Step(b', ops[0]), ops[1..]);
    }
  }
}
