/** The life of an order over a whole run: what it traded, when it ends, and that it stays ended. */
module Lifecycle {
  import opened Types
  import opened FlatBook
  import opened BookInvariants

  /** The trades among the callbacks, in order. */
  function Tape(log: seq<Event>): seq<Trade> {
    if log == [] then []
    else (if log[0].TradeEvent? then [log[0].trade] else []) + Tape(log[1..])
  }

  /** The quantity an order traded on a tape. */
  function VolumeOf(tape: seq<Trade>, id: OrderId): Quantity {
    if tape == [] then 0
    else (if tape[0].Names(id) then tape[0].qty else 0) + VolumeOf(tape[1..], id)
  }

  lemma {:induction false} TapeConcat(a: seq<Event>, c: seq<Event>)
    ensures Tape(a + c) == Tape(a) + Tape(c)
  {
    if a == [] {
      assert a + c == c;
    } else {
      var all := a + c;
      assert all[0] == a[0] && all[1..] == a[1..] + c;
      TapeConcat(a[1..], c);
      var head := if a[0].TradeEvent? then [a[0].trade] else [];
      assert head + (Tape(a[1..]) + Tape(c)) == (head + Tape(a[1..])) + Tape(c);
    }
  }

  lemma {:induction false} VolumeOfAppend(tape: seq<Trade>, t: Trade, id: OrderId)
    ensures VolumeOf(tape + [t], id) == VolumeOf(tape, id) + (if t.Names(id) then t.qty else 0)
  {
    if tape != [] {
      assert (tape + [t])[1..] == tape[1..] + [t];
      VolumeOfAppend(tape[1..], t, id);
    }
  }

  lemma {:induction false} UnnamedHasNoVolume(tape: seq<Trade>, id: OrderId)
    requires forall i :: 0 <= i < |tape| ==> !tape[i].Names(id)
    ensures VolumeOf(tape, id) == 0
  {
    if tape != [] {
      UnnamedHasNoVolume(tape[1..], id);
    }
  }

  lemma OrderEventsAddNoTrade(log: seq<Event>, o: OrderRec)
    ensures Tape(log + [OrderEvent(o)]) == Tape(log)
  {
    TapeConcat(log, [OrderEvent(o)]);
    assert Tape([OrderEvent(o)]) == [];
  }

  // ---------------------------------------------------------------- conservation

  ghost function Known(b: Book): set<OrderId> {
    b.gone.Keys + Ids(b.resting)
  }

  /** Trades are numbered 1, 2, 3, ...; they name only known orders; and every order, resting or
      gone, has filled exactly the sum of the trades that name it. */
  ghost predicate Accounted(b: Book, known: set<OrderId>) {
    var tape := Tape(b.log);
    && b.nextTradeId == |tape| + 1
    && (forall i :: 0 <= i < |tape| ==> tape[i].tradeId == i + 1 && tape[i].buyId in known && tape[i].sellId in known)
    && (forall i :: 0 <= i < |b.resting| ==> b.resting[i].filled == VolumeOf(tape, b.resting[i].id))
    && (forall id :: id in b.gone ==> b.gone[id].filled == VolumeOf(tape, id))
  }

  lemma FillTape(b: Book, taker: OrderRec)
    requires CanFill(b, taker)
    ensures Tape(FillBest(b, taker).book.log) == Tape(b.log) + FillBest(b, taker).trades
  {
    var f := FillBest(b, taker);
    var e := f.book.log[|b.log|..];
    assert f.book.log == ((b.log + [e[0]]) + [e[1]]) + [e[2]];
    TapeConcat(b.log, [e[0]]);
    assert Tape([e[0]]) == f.trades;
    OrderEventsAddNoTrade(b.log + [e[0]], e[1].order);
    OrderEventsAddNoTrade((b.log + [e[0]]) + [e[1]], e[2].order);
  }

  lemma {:induction false} SweepTape(b: Book, taker: OrderRec)
    ensures Tape(Sweep(b, taker).book.log) == Tape(b.log) + Sweep(b, taker).trades
    decreases |b.resting|, taker.Remaining()
  {
    hide CanFill, FillBest, Tape;
    if CanFill(b, taker) {
      var f := FillBest(b, taker);
      FillShrinks(b, taker);
      FillTape(b, taker);
      SweepTape(f.book, f.order);
      var rest := Sweep(f.book, f.order).trades;
      assert Tape(b.log) + (f.trades + rest) == (Tape(b.log) + f.trades) + rest;
    }
  }

  /** The trades an added order returns are exactly those the trade callback saw. */
  lemma AddTape(b: Book, order: OrderRec)
    ensures Tape(Add(b, order).book.log) == Tape(b.log) + Add(b, order).trades
  {
    hide Sweep, Tape, EligibleQty;
    var o := order.(status := New);
    var b1 := Notify(b, o);
    OrderEventsAddNoTrade(b.log, o);
    SweepTape(b1, o);
    var r := Sweep(b1, o);
    OrderEventsAddNoTrade(r.book.log, r.order.(status := Cancelled));
    OrderEventsAddNoTrade(r.book.log, r.order.(status := Expired));
    OrderEventsAddNoTrade(b1.log, o.(status := Expired));
    assert Tape(b.log) + [] == Tape(b.log);
  }

  lemma CancelTape(b: Book, id: OrderId)
    ensures Tape(Cancel(b, id).0.log) == Tape(b.log)
  {
    hide Tape;
    var k := Find(b.resting, id);
    if k < |b.resting| {
      OrderEventsAddNoTrade(b.log, b.resting[k].(status := Cancelled));
    }
  }

  lemma FillAccounts(b: Book, taker: OrderRec, known: set<OrderId>)
    requires WellFormed(b) && Taking(b, taker) && CanFill(b, taker)
    requires Accounted(b, known) && Ids(b.resting) <= known && taker.id in known
    requires taker.filled == VolumeOf(Tape(b.log), taker.id)
    ensures var f := FillBest(b, taker);
            && Accounted(f.book, known) && Ids(f.book.resting) <= known
            && f.order.filled == VolumeOf(Tape(f.book.log), taker.id)
  {
    var k := Best(b.resting, taker.side.Opposite());
    var maker := b.resting[k];
    var f := FillBest(b, taker);
    var t := f.trades[0];
    var tape, tape' := Tape(b.log), Tape(f.book.log);
    FillTape(b, taker);
    assert maker in b.resting;
    forall id
      ensures VolumeOf(tape', id) == VolumeOf(tape, id) + if id == taker.id || id == maker.id then t.qty else 0
    {
      VolumeOfAppend(tape, t, id);
    }
    forall i | 0 <= i < |f.book.resting|
      ensures f.book.resting[i].filled == VolumeOf(tape', f.book.resting[i].id) && f.book.resting[i].id in known
    {
      var j := if |f.book.resting| == |b.resting| || i < k then i else i + 1;
      assert b.resting[j] in b.resting && b.resting[j].id == f.book.resting[i].id;
    }
  }

  lemma {:induction false} SweepAccounts(b: Book, taker: OrderRec, known: set<OrderId>)
    requires WellFormed(b) && Taking(b, taker)
    requires Accounted(b, known) && Ids(b.resting) <= known && taker.id in known
    requires taker.filled == VolumeOf(Tape(b.log), taker.id)
    ensures var r := Sweep(b, taker);
            && Accounted(r.book, known)
            && r.order.filled == VolumeOf(Tape(r.book.log), taker.id)
            && Tape(r.book.log) == Tape(b.log) + r.trades
    decreases |b.resting|, taker.Remaining()
  {
    hide Accounted, WellFormed, Taking;
    if CanFill(b, taker) {
      var f := FillBest(b, taker);
      FillKeepsWellFormed(b, taker);
      FillContinues(b, taker);
      FillTape(b, taker);
      FillAccounts(b, taker, known);
      SweepAccounts(f.book, f.order, known);
    }
  }

  lemma {:induction false} SweepKnows(b: Book, taker: OrderRec)
    ensures var r := Sweep(b, taker);
            Known(r.book) == Known(b) && b.gone.Keys <= r.book.gone.Keys
    decreases |b.resting|, taker.Remaining()
  {
    if CanFill(b, taker) {
      var f := FillBest(b, taker);
      FillKnows(b, taker);
      SweepKnows(f.book, f.order);
    }
  }

  lemma IdsAfterUpdate(rs: seq<OrderRec>, k: nat, o: OrderRec)
    requires k < |rs| && o.id == rs[k].id
    ensures Ids(rs[k := o]) == Ids(rs)
  {
    var rs' := rs[k := o];
    forall x | x in rs
      ensures x.id in Ids(rs')
    {
      var i :| 0 <= i < |rs| && rs[i] == x;
      assert rs'[i] in rs' && rs'[i].id == x.id;
    }
    assert rs[k] in rs;
  }

  lemma IdsWithRemoved(rs: seq<OrderRec>, k: nat)
    requires k < |rs|
    ensures Ids(RemoveAt(rs, k)) + {rs[k].id} == Ids(rs)
  {
  }

  lemma FillKnows(b: Book, taker: OrderRec)
    requires CanFill(b, taker)
    ensures Known(FillBest(b, taker).book) == Known(b)
  {
    hide Ids, Best, RemoveAt;
    var rs, k := b.resting, Best(b.resting, taker.side.Opposite());
    IdsAfterUpdate(rs, k, WithFill(rs[k], Min(taker.Remaining(), rs[k].Remaining())));
    IdsWithRemoved(rs, k);
  }

  /** Announcing a new order that has not traded changes no account. */
  lemma NotifyAccounts(b: Book, o: OrderRec, known: set<OrderId>)
    requires Accounted(b, known)
    ensures Accounted(Notify(b, o), known) && Tape(Notify(b, o).log) == Tape(b.log)
  {
    OrderEventsAddNoTrade(b.log, o);
  }

  lemma NewcomerHasNoVolume(b: Book, id: OrderId)
    requires Accounted(b, Known(b)) && id !in Known(b)
    ensures VolumeOf(Tape(b.log), id) == 0
    ensures Accounted(b, Known(b) + {id})
  {
    UnnamedHasNoVolume(Tape(b.log), id);
  }

  lemma RetireAccounts(r: Outcome, known: set<OrderId>)
    requires Accounted(r.book, known) && r.order.filled == VolumeOf(Tape(r.book.log), r.order.id)
    ensures Accounted(Retire(r).book, known)
  {
  }

  lemma RestAccounts(r: Outcome, known: set<OrderId>)
    requires Accounted(r.book, known) && r.order.filled == VolumeOf(Tape(r.book.log), r.order.id)
    ensures Accounted(Rest(r).book, known)
  {
  }

  lemma EndKnows(r: Outcome)
    ensures Known(Retire(r).book) == Known(r.book) + {r.order.id}
    ensures Known(Rest(r).book) == Known(r.book) + {r.order.id}
  {
  }

  /** Operations forget no order, and only adding makes a new one known. */
  lemma AddKnows(b: Book, order: OrderRec)
    requires WellFormed(b) && Incoming(b, order)
    ensures Known(Add(b, order).book) == Known(b) + {order.id}
  {
    hide Known, WellFormed, Taking, Sweep, EligibleQty, Retire, Rest;
    var o := order.(status := New);
    var b1 := Notify(b, o);
    NotifyKeepsWellFormed(b, o);
    StartsTaking(b, o);
    SweepKnows(b1, o);
    SweepKeepsWellFormed(b1, o);
    var r := Sweep(b1, o);
    EndKnows(r);
    match o.typ
    case Limit =>
    case Market =>
      KnownDespiteNotify(r.book, r.order.(status := Cancelled));
      EndKnows(EndRemainder(r, Cancelled));
    case Ioc =>
      KnownDespiteNotify(r.book, r.order.(status := Expired));
      EndKnows(EndRemainder(r, Expired));
    case Fok =>
      var x := o.(status := Expired);
      KnownDespiteNotify(b1, x);
      EndKnows(Outcome(Notify(b1, x), x, []));
  }

  lemma CancelKnows(b: Book, id: OrderId)
    requires WellFormed(b)
    ensures Known(Cancel(b, id).0) == Known(b)
  {
  }

  lemma ModifyKnows(b: Book, id: OrderId, price: Price, qty: Quantity)
    requires WellFormed(b)
    ensures Known(Modify(b, id, price, qty).0) == Known(b)
  {
    hide RemoveAt;
    var k := Find(b.resting, id);
    if k < |b.resting| {
      IdsAfterRemove(b.resting, k);
      assert b.resting[k] in b.resting;
      EndKnows(Outcome(b.(resting := RemoveAt(b.resting, k)), b.resting[k].(price := price, qty := qty), []));
    }
  }

  /** Adding an order keeps every account, and its trades are exactly what the tape gained. */
  lemma AddAccounts(b: Book, order: OrderRec)
    requires WellFormed(b) && Incoming(b, order) && Accounted(b, Known(b))
    ensures var r := Add(b, order); Accounted(r.book, Known(r.book)) && Tape(r.book.log) == Tape(b.log) + r.trades
  {
    hide Accounted, Known, WellFormed, Taking, Sweep, EligibleQty, Tape;
    var o := order.(status := New);
    var b1 := Notify(b, o);
    var known := Known(b) + {o.id};
    IncomingIsUnknown(b, order);
    NewcomerHasNoVolume(b, o.id);
    NotifyKeepsWellFormed(b, o);
    NotifyAccounts(b, o, known);
    StartsTaking(b, o);
    SweepAccounts(b1, o, known);
    SweepKeepsWellFormed(b1, o);
    AddKnows(b, order);
    var r := Sweep(b1, o);
    match o.typ
    case Limit =>
      if r.order.IsDone() { RetireAccounts(r, known); } else { RestAccounts(r, known); }
    case Market =>
      NotifyAccounts(r.book, r.order.(status := Cancelled), known);
      RetireAccounts(EndRemainder(r, Cancelled), known);
    case Ioc =>
      NotifyAccounts(r.book, r.order.(status := Expired), known);
      RetireAccounts(EndRemainder(r, Expired), known);
    case Fok =>
      var x := o.(status := Expired);
      NotifyAccounts(b1, x, known);
      RetireAccounts(Outcome(Notify(b1, x), x, []), known);
      RetireAccounts(r, known);
  }

  lemma KnownDespiteNotify(b: Book, o: OrderRec)
    ensures Known(Notify(b, o)) == Known(b)
  {
  }

  lemma IncomingIsUnknown(b: Book, o: OrderRec)
    requires Incoming(b, o)
    ensures o.id !in Known(b)
    ensures Ids(b.resting) <= Known(b)
  {
  }

  lemma StartsTaking(b: Book, o: OrderRec)
    requires Incoming(b, o) && o.status == New
    ensures Taking(Notify(b, o), o)
    ensures Known(Notify(b, o)) == Known(b)
  {
  }

  /** Taking an order from one place and putting a version of it with the same id back. */
  lemma IdsAfterRemove(rs: seq<OrderRec>, k: nat)
    requires k < |rs| && Distinct(rs)
    ensures Ids(RemoveAt(rs, k)) == Ids(rs) - {rs[k].id}
  {
  }

  lemma RemovalAccounts(b: Book, k: nat, known: set<OrderId>)
    requires k < |b.resting| && Accounted(b, known)
    ensures Accounted(b.(resting := RemoveAt(b.resting, k)), known)
    ensures b.resting[k].filled == VolumeOf(Tape(b.log), b.resting[k].id)
  {
  }

  lemma CancelAccounts(b: Book, id: OrderId)
    requires WellFormed(b) && Accounted(b, Known(b))
    ensures var b' := Cancel(b, id).0; Accounted(b', Known(b')) && Tape(b'.log) == Tape(b.log)
  {
    hide Accounted, RemoveAt, VolumeOf, Tape, Known, WellFormed;
    var k := Find(b.resting, id);
    if k < |b.resting| {
      var o := b.resting[k].(status := Cancelled);
      var b1 := b.(resting := RemoveAt(b.resting, k));
      RemovalAccounts(b, k, Known(b));
      CancelKnows(b, id);
      NotifyAccounts(b1, o, Known(b));
      RetireAccounts(Outcome(Notify(b1, o), o, []), Known(b));
    }
  }

  lemma ModifyAccounts(b: Book, id: OrderId, price: Price, qty: Quantity)
    requires WellFormed(b) && Accounted(b, Known(b))
    ensures var b' := Modify(b, id, price, qty).0; Accounted(b', Known(b')) && b'.log == b.log
  {
    hide Accounted, RemoveAt, VolumeOf, Tape, Known, WellFormed;
    var k := Find(b.resting, id);
    if Modify(b, id, price, qty).1 {
      RemovalAccounts(b, k, Known(b));
      ModifyKnows(b, id, price, qty);
      RestAccounts(Outcome(b.(resting := RemoveAt(b.resting, k)), b.resting[k].(price := price, qty := qty), []),
        Known(b));
    }
  }

  lemma StepAccounts(b: Book, op: Op)
    requires WellFormed(b) && LegalOp(b, op) && Accounted(b, Known(b))
    ensures Accounted(Step(b, op), Known(Step(b, op)))
  {
    hide Accounted, Known, WellFormed, Add, Cancel, Modify;
    match op
    case AddOp(o) => AddAccounts(b, o);
    case CancelOp(id) => CancelAccounts(b, id);
    case ModifyOp(id, price, qty) => ModifyAccounts(b, id, price, qty);
  }

  /** Conservation over whole runs: trade ids are exactly 1..n in order, and every order ever seen
      has filled precisely what the trades naming it sum to. */
  lemma {:induction false} RunAccounts(b: Book, ops: seq<Op>)
    requires WellFormed(b) && LegalRun(b, ops) && Accounted(b, Known(b))
    ensures Accounted(Run(b, ops), Known(Run(b, ops)))
    decreases |ops|
  {
    if ops != [] {
      StepKeepsWellFormed(b, ops[0]);
      StepAccounts(b, ops[0]);
      RunAccounts(Step(b, ops[0]), ops[1..]);
    }
  }

  // ---------------------------------------------------------------- gone for good

  /** Every departed order of `b` is still departed in `b'`, in the very same state. */
  ghost predicate KeepsGone(b: Book, b': Book) {
    forall id :: id in b.gone ==> id in b'.gone && b'.gone[id] == b.gone[id]
  }

  lemma {:induction false} SweepKeepsGone(b: Book, taker: OrderRec)
    requires WellFormed(b) && Taking(b, taker)
    ensures KeepsGone(b, Sweep(b, taker).book)
    decreases |b.resting|, taker.Remaining()
  {
    if CanFill(b, taker) {
      FillKeepsWellFormed(b, taker);
      SweepKeepsGone(FillBest(b, taker).book, FillBest(b, taker).order);
    }
  }

  lemma StepKeepsGone(b: Book, op: Op)
    requires WellFormed(b) && LegalOp(b, op)
    ensures KeepsGone(b, Step(b, op))
  {
    hide Sweep, WellFormed;
    match op
    case AddOp(order) =>
      var o := order.(status := New);
      NotifyKeepsWellFormed(b, o);
      SweepKeepsGone(Notify(b, o), o);
      SweepKeepsWellFormed(Notify(b, o), o);
    case CancelOp(id) =>
      var k := Find(b.resting, id);
      if k < |b.resting| {
        RemovalKeepsWellFormed(b, k);
      }
    case ModifyOp(_, _, _) =>
  }

  lemma {:induction false} RunKeepsGone(b: Book, ops: seq<Op>)
    requires WellFormed(b) && LegalRun(b, ops)
    ensures KeepsGone(b, Run(b, ops))
    decreases |ops|
  {
    if ops != [] {
      StepKeepsWellFormed(b, ops[0]);
      StepKeepsGone(b, ops[0]);
      RunKeepsGone(Step(b, ops[0]), ops[1..]);
    }
  }

  /** A filled, cancelled or expired order never rests again, never changes and never trades again. */
  lemma DoneIsDone(b: Book, ops: seq<Op>, id: OrderId)
    requires WellFormed(b) && Accounted(b, Known(b)) && LegalRun(b, ops) && id in b.gone
    ensures var b' := Run(b, ops);
            && id in b'.gone && b'.gone[id] == b.gone[id]
            && id !in Ids(b'.resting)
            && VolumeOf(Tape(b'.log), id) == VolumeOf(Tape(b.log), id)
  {
    hide Run, LegalRun;
    RunKeepsWellFormed(b, ops);
    RunKeepsGone(b, ops);
    RunAccounts(b, ops);
  }
}
