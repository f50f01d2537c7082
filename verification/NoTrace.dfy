/**
 An order that never trades leaves no trace: take it and everything said about it out of a run, and
 the other callbacks, the trades with their ids, and the other orders come out exactly the same, even
 though fill-or-kill scans counted its quantity while it rested.
 */
module NoTrace {
  import opened Types
  import opened FlatBook
  import opened BookInvariants
  import opened Matching
  import opened Lifecycle

  function Drop(rs: seq<OrderRec>, x: OrderId): seq<OrderRec> {
    if rs == [] then [] else (if rs[0].id == x then [] else [rs[0]]) + Drop(rs[1..], x)
  }

  function DropLog(log: seq<Event>, x: OrderId): seq<Event> {
    if log == [] then []
    else (if log[0].OrderEvent? && log[0].order.id == x then [] else [log[0]]) + DropLog(log[1..], x)
  }

  /** The book as it would be without order x, and without the callbacks about it. */
  function Shadow(b: Book, x: OrderId): Book {
    b.(resting := Drop(b.resting, x), gone := b.gone - {x}, log := DropLog(b.log, x))
  }

  predicate OpNames(op: Op, x: OrderId) {
    match op
    case AddOp(o) => o.id == x
    case CancelOp(id) => id == x
    case ModifyOp(id, _, _) => id == x
  }

  function Erase(ops: seq<Op>, x: OrderId): seq<Op> {
    if ops == [] then [] else (if OpNames(ops[0], x) then [] else [ops[0]]) + Erase(ops[1..], x)
  }

  ghost predicate Untraded(ts: seq<Trade>, x: OrderId) {
    forall i :: 0 <= i < |ts| ==> !ts[i].Names(x)
  }

  // ---------------------------------------------------------------- dropping

  lemma {:induction false} DropConcat(a: seq<OrderRec>, c: seq<OrderRec>, x: OrderId)
    ensures Drop(a + c, x) == Drop(a, x) + Drop(c, x)
  {
    if a == [] {
      assert a + c == c;
    } else {
      var all := a + c;
      assert all[0] == a[0] && all[1..] == a[1..] + c;
      DropConcat(a[1..], c, x);
      var head := if a[0].id == x then [] else [a[0]];
      assert head + (Drop(a[1..], x) + Drop(c, x)) == (head + Drop(a[1..], x)) + Drop(c, x);
    }
  }

  lemma {:induction false} DropLogConcat(a: seq<Event>, c: seq<Event>, x: OrderId)
    ensures DropLog(a + c, x) == DropLog(a, x) + DropLog(c, x)
  {
    if a == [] {
      assert a + c == c;
    } else {
      var all := a + c;
      assert all[0] == a[0] && all[1..] == a[1..] + c;
      DropLogConcat(a[1..], c, x);
      var head := if a[0].OrderEvent? && a[0].order.id == x then [] else [a[0]];
      assert head + (DropLog(a[1..], x) + DropLog(c, x)) == (head + DropLog(a[1..], x)) + DropLog(c, x);
    }
  }

  lemma DropLogAppend(log: seq<Event>, e: Event, x: OrderId)
    ensures DropLog(log + [e], x) == DropLog(log, x) + (if e.OrderEvent? && e.order.id == x then [] else [e])
  {
    DropLogConcat(log, [e], x);
  }

  lemma {:induction false} DropMember(rs: seq<OrderRec>, x: OrderId, i: nat) returns (j: nat)
    requires i < |Drop(rs, x)|
    ensures j < |rs| && rs[j] == Drop(rs, x)[i] && rs[j].id != x
  {
    if rs[0].id == x {
      var j' := DropMember(rs[1..], x, i);
      j := j' + 1;
    } else if i == 0 {
      j := 0;
    } else {
      var j' := DropMember(rs[1..], x, i - 1);
      j := j' + 1;
    }
  }

  /** Where order k of the list stands once x has been dropped. */
  function PlaceOf(rs: seq<OrderRec>, x: OrderId, k: nat): nat
    requires k < |rs|
  {
    |Drop(rs[..k], x)|
  }

  lemma DropSplit(rs: seq<OrderRec>, x: OrderId, k: nat)
    requires k < |rs|
    ensures Drop(rs, x) == Drop(rs[..k], x) + Drop([rs[k]], x) + Drop(rs[k + 1..], x)
    ensures Drop(RemoveAt(rs, k), x) == Drop(rs[..k], x) + Drop(rs[k + 1..], x)
    ensures rs[k].id == x ==> Drop(RemoveAt(rs, k), x) == Drop(rs, x)
  {
    assert rs == rs[..k] + ([rs[k]] + rs[k + 1..]);
    DropConcat(rs[..k], [rs[k]] + rs[k + 1..], x);
    DropConcat([rs[k]], rs[k + 1..], x);
    DropConcat(rs[..k], rs[k + 1..], x);
  }

  lemma DropKeeps(rs: seq<OrderRec>, x: OrderId, k: nat)
    requires k < |rs| && rs[k].id != x
    ensures var m := PlaceOf(rs, x, k);
            && m < |Drop(rs, x)| && Drop(rs, x)[m] == rs[k]
            && Drop(rs, x)[..m] == Drop(rs[..k], x)
            && RemoveAt(Drop(rs, x), m) == Drop(RemoveAt(rs, k), x)
            && forall o: OrderRec :: o.id != x ==> Drop(rs, x)[m := o] == Drop(rs[k := o], x)
  {
    DropSplit(rs, x, k);
    assert Drop([rs[k]], x) == [rs[k]];
    forall o: OrderRec | o.id != x
      ensures Drop(rs, x)[PlaceOf(rs, x, k) := o] == Drop(rs[k := o], x)
    {
      var rs' := rs[k := o];
      DropSplit(rs', x, k);
      assert rs'[..k] == rs[..k] && rs'[k + 1..] == rs[k + 1..];
      assert Drop([o], x) == [o];
    }
  }

  lemma DropFind(rs: seq<OrderRec>, x: OrderId, id: OrderId)
    requires id != x
    ensures var k := Find(rs, id);
            Find(Drop(rs, x), id) == if k < |rs| then PlaceOf(rs, x, k) else |Drop(rs, x)|
  {
    var k, ds := Find(rs, id), Drop(rs, x);
    if k < |rs| {
      DropKeeps(rs, x, k);
      forall i | 0 <= i < PlaceOf(rs, x, k)
        ensures ds[i].id != id
      {
        assert ds[i] == Drop(rs[..k], x)[i];
        var j := DropMember(rs[..k], x, i);
      }
      FindIs(ds, PlaceOf(rs, x, k));
    } else {
      forall i | 0 <= i < |ds|
        ensures ds[i].id != id
      {
        var j := DropMember(rs, x, i);
      }
    }
  }

  // ---------------------------------------------------------------- the sweep

  /** Best is the same order in the shadow, unless it is x itself. */
  lemma ShadowBest(rs: seq<OrderRec>, x: OrderId, side: Side)
    ensures var k := Best(rs, side);
            k < |rs| && rs[k].id != x ==> Best(Drop(rs, x), side) == PlaceOf(rs, x, k)
  {
    var k, ds := Best(rs, side), Drop(rs, x);
    if k < |rs| && rs[k].id != x {
      DropKeeps(rs, x, k);
      forall i | 0 <= i < |ds| && ds[i].side == side
        ensures !Better(side, ds[i].price, rs[k].price)
      {
        var j := DropMember(rs, x, i);
      }
      forall i | 0 <= i < PlaceOf(rs, x, k) && ds[i].side == side
        ensures Better(side, rs[k].price, ds[i].price)
      {
        assert ds[i] == Drop(rs[..k], x)[i];
        var j := DropMember(rs[..k], x, i);
      }
      BestIsUnique(ds, side, PlaceOf(rs, x, k));
    }
  }

  lemma ShadowCannotFillEither(b: Book, taker: OrderRec, x: OrderId)
    requires !CanFill(b, taker)
    ensures !CanFill(Shadow(b, x), taker)
  {
    var side := taker.side.Opposite();
    var ds := Drop(b.resting, x);
    var m := Best(ds, side);
    if m < |ds| {
      var j := DropMember(b.resting, x, m);
    }
  }

  lemma ShadowFill(b: Book, taker: OrderRec, x: OrderId)
    requires CanFill(b, taker) && taker.id != x && !FillBest(b, taker).trades[0].Names(x)
    ensures CanFill(Shadow(b, x), taker)
    ensures var f := FillBest(b, taker);
            FillBest(Shadow(b, x), taker) == Outcome(Shadow(f.book, x), f.order, f.trades)
  {
    hide Best, Drop, DropLog, RemoveAt;
    var k := Best(b.resting, taker.side.Opposite());
    var f := FillBest(b, taker);
    ShadowBest(b.resting, x, taker.side.Opposite());
    DropKeeps(b.resting, x, k);
    var e := f.book.log[|b.log|..];
    assert f.book.log == ((b.log + [e[0]]) + [e[1]]) + [e[2]];
    DropLogAppend(b.log, e[0], x);
    DropLogAppend(b.log + [e[0]], e[1], x);
    DropLogAppend((b.log + [e[0]]) + [e[1]], e[2], x);
    assert DropLog(f.book.log, x) == DropLog(b.log, x) + [e[0], e[1], e[2]];
  }

  lemma {:induction false} ShadowSweep(b: Book, taker: OrderRec, x: OrderId)
    requires taker.id != x && Untraded(Sweep(b, taker).trades, x)
    ensures var r := Sweep(b, taker);
            Sweep(Shadow(b, x), taker) == Outcome(Shadow(r.book, x), r.order, r.trades)
    decreases |b.resting|, taker.Remaining()
  {
    hide Shadow, CanFill, FillBest;
    if CanFill(b, taker) {
      var f := FillBest(b, taker);
      var r := Sweep(f.book, f.order);
      OneTrade(b, taker);
      assert f.trades[0] == (f.trades + r.trades)[0];
      forall i | 0 <= i < |r.trades|
        ensures !r.trades[i].Names(x)
      {
        assert r.trades[i] == (f.trades + r.trades)[i + 1];
      }
      ShadowFill(b, taker, x);
      ShadowSweep(f.book, f.order, x);
    } else {
      ShadowCannotFillEither(b, taker, x);
    }
  }

  lemma OneTrade(b: Book, taker: OrderRec)
    requires CanFill(b, taker)
    ensures var f := FillBest(b, taker);
            && |f.trades| == 1 && f.trades[0].Names(taker.id) && f.order.id == taker.id
            && (|f.book.resting| < |b.resting|
                 || (|f.book.resting| == |b.resting| && 0 <= f.order.Remaining() < taker.Remaining()))
  {
  }

  // ---------------------------------------------------------------- fill-or-kill

  lemma {:induction false} DropEligible(rs: seq<OrderRec>, x: OrderId, side: Side, limit: Option<Price>)
    requires forall i :: 0 <= i < |rs| ==> rs[i].Remaining() >= 0
    ensures EligibleQty(Drop(rs, x), side, limit) <= EligibleQty(rs, side, limit)
  {
    if rs != [] {
      DropEligible(rs[1..], x, side, limit);
      EligibleConcat(if rs[0].id == x then [] else [rs[0]], Drop(rs[1..], x), side, limit);
    }
  }

  lemma ShadowWellFormed(b: Book, x: OrderId)
    requires WellFormed(b)
    ensures WellFormed(Shadow(b, x))
  {
    DropDistinct(b.resting, x);
    forall i | 0 <= i < |Drop(b.resting, x)|
      ensures Live(Drop(b.resting, x)[i]) && Drop(b.resting, x)[i].id !in b.gone
    {
      var j := DropMember(b.resting, x, i);
    }
  }

  lemma {:induction false} DropDistinct(rs: seq<OrderRec>, x: OrderId)
    requires Distinct(rs)
    ensures Distinct(Drop(rs, x))
  {
    if rs != [] {
      DropDistinct(rs[1..], x);
      var ds := Drop(rs[1..], x);
      forall i | 0 <= i < |ds|
        ensures ds[i].id != rs[0].id
      {
        var j := DropMember(rs[1..], x, i);
      }
    }
  }

  lemma ShadowIncoming(b: Book, o: OrderRec, x: OrderId)
    requires Incoming(b, o)
    ensures Incoming(Shadow(b, x), o)
  {
    forall i | 0 <= i < |Drop(b.resting, x)|
      ensures Drop(b.resting, x)[i].id != o.id
    {
      var j := DropMember(b.resting, x, i);
    }
  }

  /** A sweep that stays within a limit cannot trade more than that limit reaches. */
  lemma {:induction false} WithinLimitMeansEligible(b: Book, taker: OrderRec, limit: Option<Price>)
    requires WellFormed(b) && Taking(b, taker)
    requires forall i :: 0 <= i < |Sweep(b, taker).trades| ==>
               WithinLimit(taker.side, limit, Sweep(b, taker).trades[i].price)
    ensures Volume(Sweep(b, taker).trades) <= EligibleQty(b.resting, taker.side, limit)
    decreases |b.resting|, taker.Remaining()
  {
    hide EligibleQty, WellFormed, CanFill, FillBest;
    EligibleIffBest(b, taker.side, limit);
    if CanFill(b, taker) {
      var f := FillBest(b, taker);
      var r := Sweep(f.book, f.order);
      OneTrade(b, taker);
      FillSide(b, taker);
      var ts := Sweep(b, taker).trades;
      assert ts == f.trades + r.trades;
      assert f.trades[0] == (f.trades + r.trades)[0];
      forall i | 0 <= i < |r.trades|
        ensures WithinLimit(taker.side, limit, r.trades[i].price)
      {
        assert r.trades[i] == ts[i + 1];
      }
      FillKeepsWellFormed(b, taker);
      FillTakesEligible(b, taker, limit);
      WithinLimitMeansEligible(f.book, f.order, limit);
      assert (f.trades + r.trades)[1..] == r.trades;
    }
  }

  lemma FillSide(b: Book, taker: OrderRec)
    requires CanFill(b, taker)
    ensures FillBest(b, taker).order.side == taker.side
  {
  }

  /** The scan gives the same verdict with and without x, although it counted x. */
  lemma ShadowFok(b: Book, o: OrderRec, x: OrderId)
    requires WellFormed(b) && Taking(b, o) && o.typ.Fok? && o.id != x
    requires EligibleQty(b.resting, o.side, Some(o.price)) >= o.Remaining() ==> Untraded(Sweep(b, o).trades, x)
    ensures EligibleQty(Drop(b.resting, x), o.side, Some(o.price)) >= o.Remaining()
            <==> EligibleQty(b.resting, o.side, Some(o.price)) >= o.Remaining()
  {
    forall i | 0 <= i < |b.resting|
      ensures b.resting[i].Remaining() >= 0
    {
      assert Live(b.resting[i]);
    }
    hide EligibleQty, WellFormed, Taking, Sweep;
    DropEligible(b.resting, x, o.side, Some(o.price));
    if EligibleQty(b.resting, o.side, Some(o.price)) >= o.Remaining() {
      SweepTakesAllItCan(b, o, Some(o.price));
      ShadowSweep(b, o, x);
      ShadowWellFormed(b, x);
      ShadowTaking(b, o, x);
      WithinLimitMeansEligible(Shadow(b, x), o, Some(o.price));
    }
  }

  lemma ShadowTaking(b: Book, o: OrderRec, x: OrderId)
    requires Taking(b, o)
    ensures Taking(Shadow(b, x), o)
  {
    forall i | 0 <= i < |Drop(b.resting, x)|
      ensures Drop(b.resting, x)[i].id != o.id
    {
      var j := DropMember(b.resting, x, i);
    }
  }

  // ---------------------------------------------------------------- operations

  lemma ShadowNotify(b: Book, o: OrderRec, x: OrderId)
    ensures Shadow(Notify(b, o), x) == if o.id == x then Shadow(b, x) else Notify(Shadow(b, x), o)
  {
    DropLogAppend(b.log, OrderEvent(o), x);
  }

  lemma ShadowRetire(r: Outcome, x: OrderId)
    ensures Retire(r).order == Rest(r).order == r.order && Retire(r).trades == Rest(r).trades == r.trades
    ensures r.order.id == x ==> Shadow(Retire(r).book, x) == Shadow(Rest(r).book, x) == Shadow(r.book, x)
    ensures r.order.id != x ==>
              var s := r.(book := Shadow(r.book, x));
              && Retire(s) == Retire(r).(book := Shadow(Retire(r).book, x))
              && Rest(s) == Rest(r).(book := Shadow(Rest(r).book, x))
  {
    DropConcat(r.book.resting, [r.order], x);
  }

  /** Adding another order: the shadow makes the same trades and stays the shadow. */
  lemma ShadowAddOther(b: Book, order: OrderRec, x: OrderId)
    requires WellFormed(b) && Incoming(b, order) && order.id != x && Untraded(Add(b, order).trades, x)
    ensures var r := Add(b, order); Add(Shadow(b, x), order) == Outcome(Shadow(r.book, x), r.order, r.trades)
  {
    hide WellFormed, Taking, Sweep, EligibleQty, Shadow, Retire, Rest, Notify;
    var o := order.(status := New);
    var b1 := Notify(b, o);
    NotifyKeepsWellFormed(b, o);
    StartsTaking(b, o);
    ShadowNotify(b, o, x);
    SweepKeepsWellFormed(b1, o);
    AddTradesAreSweepTrades(b, order);
    var r := Sweep(b1, o);
    if o.typ.Fok? {
      ShadowFok(b1, o, x);
      RestingOf(b1, x);
      if EligibleQty(b1.resting, o.side, Some(o.price)) >= o.qty {
        ShadowSweep(b1, o, x);
        ShadowRetire(r, x);
      } else {
        var k := o.(status := Expired);
        ShadowNotify(b1, k, x);
        ShadowRetire(Outcome(Notify(b1, k), k, []), x);
      }
    } else {
      ShadowSweep(b1, o, x);
      ShadowRetire(r, x);
      ShadowNotify(r.book, r.order.(status := Cancelled), x);
      ShadowRetire(EndRemainder(r, Cancelled), x);
      ShadowNotify(r.book, r.order.(status := Expired), x);
      ShadowRetire(EndRemainder(r, Expired), x);
    }
  }

  lemma RestingOf(b: Book, x: OrderId)
    ensures Shadow(b, x).resting == Drop(b.resting, x)
  {
  }

  lemma FillsNameTaker(b: Book, o: OrderRec)
    requires CanFill(b, o)
    ensures !Untraded(Sweep(b, o).trades, o.id)
  {
    OneTrade(b, o);
    var f := FillBest(b, o);
    assert Sweep(b, o).trades[0] == f.trades[0];
  }

  /** A sweep that made no trade naming its own order made no trade at all. */
  lemma UntradedSweepIsIdle(b: Book, o: OrderRec)
    requires Untraded(Sweep(b, o).trades, o.id)
    ensures Sweep(b, o) == Outcome(b, o, [])
  {
    if CanFill(b, o) {
      FillsNameTaker(b, o);
    }
  }

  /** Adding x itself: since it does not trade, only x changes. */
  lemma ShadowAddSelf(b: Book, order: OrderRec)
    requires WellFormed(b) && Incoming(b, order) && Untraded(Add(b, order).trades, order.id)
    ensures Shadow(Add(b, order).book, order.id) == Shadow(b, order.id)
    ensures Add(b, order).trades == []
  {
    hide WellFormed, Taking, Sweep, EligibleQty, Shadow, Retire, Rest, Notify;
    var x := order.id;
    var o := order.(status := New);
    var b1 := Notify(b, o);
    NotifyKeepsWellFormed(b, o);
    StartsTaking(b, o);
    ShadowNotify(b, o, x);
    var r := Outcome(b1, o, []);
    ShadowRetire(r, x);
    ShadowNotify(b1, o.(status := Cancelled), x);
    ShadowRetire(EndRemainder(r, Cancelled), x);
    ShadowNotify(b1, o.(status := Expired), x);
    ShadowRetire(EndRemainder(r, Expired), x);
    AddTradesAreSweepTrades(b, order);
    if !(o.typ.Fok? && EligibleQty(b1.resting, o.side, Some(o.price)) < o.qty) {
      UntradedSweepIsIdle(b1, o);
      if o.typ.Fok? {
        SweepTakesAllItCan(b1, o, Some(o.price));
      }
    }
  }

  lemma ShadowCancel(b: Book, id: OrderId, x: OrderId)
    ensures var b' := Cancel(b, id).0;
            Shadow(b', x) == if id == x then Shadow(b, x) else Cancel(Shadow(b, x), id).0
  {
    hide RemoveAt, Drop, DropLog;
    var k := Find(b.resting, id);
    if k < |b.resting| {
      DropLogAppend(b.log, OrderEvent(b.resting[k].(status := Cancelled)), x);
      if id == x {
        DropSplit(b.resting, x, k);
      } else {
        DropKeeps(b.resting, x, k);
      }
    }
    if id != x {
      DropFind(b.resting, x, id);
    }
  }

  lemma ShadowModify(b: Book, id: OrderId, price: Price, qty: Quantity, x: OrderId)
    ensures var b' := Modify(b, id, price, qty).0;
            Shadow(b', x) == if id == x then Shadow(b, x) else Modify(Shadow(b, x), id, price, qty).0
  {
    hide RemoveAt, DropLog;
    var k := Find(b.resting, id);
    if k < |b.resting| {
      DropConcat(RemoveAt(b.resting, k), [b.resting[k].(price := price, qty := qty)], x);
      if id == x {
        DropSplit(b.resting, x, k);
      } else {
        DropKeeps(b.resting, x, k);
      }
    }
    if id != x {
      DropFind(b.resting, x, id);
    }
  }

  // ---------------------------------------------------------------- runs

  /** The trades an operation makes. */
  function StepTrades(b: Book, op: Op): seq<Trade> {
    if op.AddOp? then Add(b, op.order).trades else []
  }

  function RunTrades(b: Book, ops: seq<Op>): seq<Trade>
    decreases |ops|
  {
    if ops == [] then [] else StepTrades(b, ops[0]) + RunTrades(Step(b, ops[0]), ops[1..])
  }

  lemma ShadowStep(b: Book, op: Op, x: OrderId)
    requires WellFormed(b) && LegalOp(b, op) && Untraded(StepTrades(b, op), x)
    ensures LegalOp(Shadow(b, x), op)
    ensures OpNames(op, x) ==> Shadow(Step(b, op), x) == Shadow(b, x) && StepTrades(b, op) == []
    ensures !OpNames(op, x) ==>
              Step(Shadow(b, x), op) == Shadow(Step(b, op), x) && StepTrades(Shadow(b, x), op) == StepTrades(b, op)
  {
    hide Shadow, Add, Cancel, Modify, WellFormed, Incoming;
    match op
    case AddOp(o) =>
      ShadowIncoming(b, o, x);
      if o.id == x { ShadowAddSelf(b, o); } else { ShadowAddOther(b, o, x); }
    case CancelOp(id) => ShadowCancel(b, id, x);
    case ModifyOp(id, price, qty) => ShadowModify(b, id, price, qty, x);
  }

  /** Take every mention of an order that never trades out of a run: the trades are the same, ids
      included, and the book is the same but for that order and the callbacks about it. */
  lemma {:induction false} UntradedOrderLeavesNoTrace(b: Book, ops: seq<Op>, x: OrderId)
    requires WellFormed(b) && LegalRun(b, ops) && Untraded(RunTrades(b, ops), x)
    ensures LegalRun(Shadow(b, x), Erase(ops, x))
    ensures Run(Shadow(b, x), Erase(ops, x)) == Shadow(Run(b, ops), x)
    ensures RunTrades(Shadow(b, x), Erase(ops, x)) == RunTrades(b, ops)
    decreases |ops|
  {
    hide Shadow, Step, StepTrades, OpNames, LegalOp, WellFormed;
    if ops != [] {
      var first, rest := StepTrades(b, ops[0]), RunTrades(Step(b, ops[0]), ops[1..]);
      assert forall i :: 0 <= i < |first| ==> first[i] == (first + rest)[i];
      assert forall i :: 0 <= i < |rest| ==> rest[i] == (first + rest)[|first| + i];
      ShadowStep(b, ops[0], x);
      StepKeepsWellFormed(b, ops[0]);
      UntradedOrderLeavesNoTrace(Step(b, ops[0]), ops[1..], x);
      if OpNames(ops[0], x) {
        assert Erase(ops, x) == Erase(ops[1..], x);
        assert RunTrades(b, ops) == rest;
      } else {
        assert Erase(ops, x)[0] == ops[0] && Erase(ops, x)[1..] == Erase(ops[1..], x);
      }
    }
  }

  /** For a whole run of a new book, with x cancelled or otherwise out of the book in the end: the
      final resting orders are identical with and without x. */
  lemma CancelledUntradedOrderLeavesNoTrace(symbol: string, ops: seq<Op>, x: OrderId)
    requires LegalRun(Empty(symbol), ops) && Untraded(RunTrades(Empty(symbol), ops), x)
    requires Find(Run(Empty(symbol), ops).resting, x) == |Run(Empty(symbol), ops).resting|
    ensures var with, without := Run(Empty(symbol), ops), Run(Empty(symbol), Erase(ops, x));
            && without.resting == with.resting && without.nextTradeId == with.nextTradeId
            && without.gone == with.gone - {x}
    ensures RunTrades(Empty(symbol), Erase(ops, x)) == RunTrades(Empty(symbol), ops)
  {
    hide Run, LegalRun, RunTrades;
    UntradedOrderLeavesNoTrace(Empty(symbol), ops, x);
    assert Shadow(Empty(symbol), x) == Empty(symbol);
    DropNothing(Run(Empty(symbol), ops).resting, x);
  }

  lemma {:induction false} DropNothing(rs: seq<OrderRec>, x: OrderId)
    requires Find(rs, x) == |rs|
    ensures Drop(rs, x) == rs
  {
    if rs != [] {
      DropNothing(rs[1..], x);
    }
  }
}
