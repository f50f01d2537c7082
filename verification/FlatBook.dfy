/**
 The reference book: one flat list of resting orders in arrival order, both sides together.
 Every fill rescans the whole list for the best price and, at that price, the earliest arrival.
 There are no levels, no cached totals and no index, so price-time priority can be read off Best.
 */
module FlatBook {
  import opened Types

  /** `gone` keeps the last state of every order that has left the book. */
  datatype Book = Book(
    symbol: string, resting: seq<OrderRec>, gone: map<OrderId, OrderRec>,
    nextTradeId: nat, log: seq<Event>)

  datatype Outcome = Outcome(book: Book, order: OrderRec, trades: seq<Trade>)

  function Empty(symbol: string): Book {
    Book(symbol, [], map[], 1, [])
  }

  // ---------------------------------------------------------------- the flat list

  function RemoveAt<T>(s: seq<T>, k: nat): seq<T>
    requires k < |s|
  {
    s[..k] + s[k + 1..]
  }

  /** Position of the order that trades next on a side, or |rs| when that side is empty. */
  function Best(rs: seq<OrderRec>, side: Side): (k: nat)
    ensures k <= |rs|
    ensures k == |rs| ==> forall i :: 0 <= i < |rs| ==> rs[i].side != side
    ensures k < |rs| ==> rs[k].side == side
    ensures k < |rs| ==> forall i :: 0 <= i < |rs| && rs[i].side == side ==> !Better(side, rs[i].price, rs[k].price)
    ensures k < |rs| ==> forall i :: 0 <= i < k && rs[i].side == side ==> Better(side, rs[k].price, rs[i].price)
  {
    if rs == [] then 0
    else
      var n := |rs| - 1;
      var k := Best(rs[..n], side);
      if rs[n].side != side then (if k == n then n + 1 else k)
      else if k == n || Better(side, rs[n].price, rs[k].price) then n
      else k
  }

  /** Position of the order with this id, or |rs| when it is not resting. */
  function Find(rs: seq<OrderRec>, id: OrderId): (k: nat)
    ensures k <= |rs|
    ensures k < |rs| ==> rs[k].id == id
    ensures forall i :: 0 <= i < k ==> rs[i].id != id
  {
    if rs == [] then 0 else if rs[0].id == id then 0 else 1 + Find(rs[1..], id)
  }

  /** Quantity resting on the other side that a taker with this limit, or without one, could reach. */
  function EligibleQty(rs: seq<OrderRec>, side: Side, limit: Option<Price>): Quantity {
    if rs == [] then 0
    else
      (if rs[0].side == side.Opposite() && WithinLimit(side, limit, rs[0].price) then rs[0].Remaining() else 0)
      + EligibleQty(rs[1..], side, limit)
  }

  function Volume(ts: seq<Trade>): Quantity {
    if ts == [] then 0 else ts[0].qty + Volume(ts[1..])
  }

  // ---------------------------------------------------------------- matching

  function WithFill(o: OrderRec, q: Quantity): OrderRec {
    o.(filled := o.filled + q,
       status := if o.qty - (o.filled + q) == 0 then Filled else PartiallyFilled)
  }

  function MakeTrade(b: Book, taker: OrderRec, maker: OrderRec, q: Quantity): Trade {
    if taker.side.Buy?
    then Trade(b.nextTradeId, taker.id, maker.id, b.symbol, maker.price, q)
    else Trade(b.nextTradeId, maker.id, taker.id, b.symbol, maker.price, q)
  }

  /** The list and the departed orders once the order at position k has become `o`. */
  function RestingAfter(rs: seq<OrderRec>, k: nat, o: OrderRec): seq<OrderRec>
    requires k < |rs|
  {
    if o.IsDone() then RemoveAt(rs, k) else rs[k := o]
  }

  function GoneAfter(gone: map<OrderId, OrderRec>, o: OrderRec): map<OrderId, OrderRec> {
    if o.IsDone() then gone[o.id := o] else gone
  }

  /** Trade the taker against the resting order at position k. */
  function FillAt(b: Book, k: nat, taker: OrderRec): Outcome
    requires k < |b.resting|
  {
    var maker := b.resting[k];
    var q := Min(taker.Remaining(), maker.Remaining());
    var t := MakeTrade(b, taker, maker, q);
    var maker' := WithFill(maker, q);
    var taker' := WithFill(taker, q);
    Outcome(
      b.(resting := RestingAfter(b.resting, k, maker'),
         gone := GoneAfter(b.gone, maker'),
         nextTradeId := b.nextTradeId + 1,
         log := b.log + [TradeEvent(t), OrderEvent(maker'), OrderEvent(taker')]),
      taker', [t])
  }

  /** The sweep looks at the price only for limit and immediate-or-cancel orders. */
  function SweepLimit(taker: OrderRec): Option<Price> {
    if taker.typ.Limit? || taker.typ.Ioc? then Some(taker.price) else None
  }

  predicate Accepts(taker: OrderRec, p: Price) {
    WithinLimit(taker.side, SweepLimit(taker), p)
  }

  predicate CanFill(b: Book, taker: OrderRec) {
    var k := Best(b.resting, taker.side.Opposite());
    taker.Remaining() > 0 && k < |b.resting| && Accepts(taker, b.resting[k].price)
  }

  function FillBest(b: Book, taker: OrderRec): Outcome
    requires CanFill(b, taker)
  {
    FillAt(b, Best(b.resting, taker.side.Opposite()), taker)
  }

  function Sweep(b: Book, taker: OrderRec): Outcome
    decreases |b.resting|, taker.Remaining()
  {
    if CanFill(b, taker) then
      var f := FillBest(b, taker);
      var r := Sweep(f.book, f.order);
      Outcome(r.book, r.order, f.trades + r.trades)
    else
      Outcome(b, taker, [])
  }

  /** A sweep still to be finished from here, with some trades already made. */
  function Continued(b: Book, taker: OrderRec, trades: seq<Trade>): Outcome {
    var r := Sweep(b, taker);
    r.(trades := trades + r.trades)
  }

  // ---------------------------------------------------------------- operations

  function Notify(b: Book, o: OrderRec): Book {
    b.(log := b.log + [OrderEvent(o)])
  }

  function Retire(r: Outcome): Outcome {
    r.(book := r.book.(gone := r.book.gone[r.order.id := r.order]))
  }

  function Rest(r: Outcome): Outcome {
    r.(book := r.book.(resting := r.book.resting + [r.order]))
  }

  /** Whatever is left unfilled ends with this status, and is announced. */
  function EndRemainder(r: Outcome, status: OrderStatus): Outcome {
    if r.order.Remaining() > 0 then
      var o := r.order.(status := status);
      r.(book := Notify(r.book, o), order := o)
    else r
  }

  function Add(b: Book, order: OrderRec): Outcome {
    var o := order.(status := New);
    var b1 := Notify(b, o);
    match o.typ
    case Limit =>
      var r := Sweep(b1, o);
      if r.order.IsDone() then Retire(r) else Rest(r)
    case Market => Retire(EndRemainder(Sweep(b1, o), Cancelled))
    case Ioc => Retire(EndRemainder(Sweep(b1, o), Expired))
    case Fok =>
      if EligibleQty(b1.resting, o.side, Some(o.price)) < o.qty then
        var x := o.(status := Expired);
        Retire(Outcome(Notify(b1, x), x, []))
      else
        Retire(Sweep(b1, o))
  }

  function Cancel(b: Book, id: OrderId): (Book, bool) {
    var k := Find(b.resting, id);
    if k == |b.resting| then (b, false)
    else
      var o := b.resting[k].(status := Cancelled);
      (b.(resting := RemoveAt(b.resting, k), gone := b.gone[id := o], log := b.log + [OrderEvent(o)]), true)
  }

  function Modify(b: Book, id: OrderId, price: Price, qty: Quantity): (Book, bool) {
    var k := Find(b.resting, id);
    if k == |b.resting| || qty <= b.resting[k].filled then (b, false)
    else (b.(resting := RemoveAt(b.resting, k) + [b.resting[k].(price := price, qty := qty)]), true)
  }

  // ---------------------------------------------------------------- runs

  datatype Op =
    | AddOp(order: OrderRec)
    | CancelOp(id: OrderId)
    | ModifyOp(id: OrderId, price: Price, qty: Quantity)

  function Step(b: Book, op: Op): Book {
    match op
    case AddOp(o) => Add(b, o).book
    case CancelOp(id) => Cancel(b, id).0
    case ModifyOp(id, price, qty) => Modify(b, id, price, qty).0
  }

  function Run(b: Book, ops: seq<Op>): Book
    decreases |ops|
  {
    if ops == [] then b else Run(Step(b, ops[0]), ops[1..])
  }

  /** What a caller owes the book: an unused id, a positive quantity and nothing filled yet. */
  ghost predicate Incoming(b: Book, o: OrderRec) {
    && o.qty > 0 && o.filled == 0
    && o.id !in b.gone
    && forall i :: 0 <= i < |b.resting| ==> b.resting[i].id != o.id
  }

  ghost predicate LegalOp(b: Book, op: Op) {
    op.AddOp? ==> Incoming(b, op.order)
  }

  ghost predicate LegalRun(b: Book, ops: seq<Op>)
    decreases |ops|
  {
    ops != [] ==> LegalOp(b, ops[0]) && LegalRun(Step(b, ops[0]), ops[1..])
  }

  ghost function Ids(rs: seq<OrderRec>): set<OrderId> {
    set o | o in rs :: o.id
  }

  // ---------------------------------------------------------------- well-formedness

  ghost predicate Distinct(rs: seq<OrderRec>) {
    forall i, j :: 0 <= i < j < |rs| ==> rs[i].id != rs[j].id
  }

  /** The state an order may be in while it waits in the book. */
  ghost predicate Live(o: OrderRec) {
    && o.typ.Limit? && 0 <= o.filled < o.qty
    && o.status == (if o.filled == 0 then New else PartiallyFilled)
  }

  ghost predicate Finished(o: OrderRec) {
    && 0 <= o.filled <= o.qty
    && (o.status.Filled? || o.status.Cancelled? || o.status.Expired?)
    && (o.status.Filled? <==> o.Remaining() == 0)
  }

  ghost predicate WellFormed(b: Book) {
    && Distinct(b.resting)
    && b.nextTradeId >= 1
    && (forall i :: 0 <= i < |b.resting| ==> Live(b.resting[i]) && b.resting[i].id !in b.gone)
    && (forall id :: id in b.gone ==> b.gone[id].id == id && Finished(b.gone[id]))
  }

  /** An order while it sweeps: not in the book, and its status tells how much it has traded. */
  ghost predicate Taking(b: Book, o: OrderRec) {
    && 0 <= o.filled <= o.qty && o.qty > 0
    && o.status == (if o.filled == 0 then New else if o.filled == o.qty then Filled else PartiallyFilled)
    && o.id !in b.gone
    && forall i :: 0 <= i < |b.resting| ==> b.resting[i].id != o.id
  }
}
