/**
 The parts the order book is built from: heap orders, price levels, ordered iteration over the
 level maps, and what it means for a side's levels to agree with a flat list of resting orders.
 */
module PriceLevels {
  import opened Types
  import opened FlatBook

  class Order {
    const id: OrderId
    const side: Side
    const typ: OrderType
    var price: Price
    var qty: Quantity
    var filledQty: Quantity
    var status: OrderStatus

    constructor (rec: OrderRec)
      ensures Rec() == rec
    {
      id, side, typ := rec.id, rec.side, rec.typ;
      price, qty, filledQty, status := rec.price, rec.qty, rec.filled, rec.status;
    }

    function Rec(): OrderRec
      reads this
    {
      OrderRec(id, side, typ, price, qty, filledQty, status)
    }

    function Remaining(): Quantity
      reads this
    {
      qty - filledQty
    }

    predicate IsDone()
      reads this
    {
      status.IsDone()
    }
  }

  /** All orders at one price, first come first served, with the cached sum of their remainders. */
  datatype PriceLevel = PriceLevel(price: Price, orders: seq<Order>, totalQty: Quantity)

  type Levels = map<Price, PriceLevel>

  // ---------------------------------------------------------------- ordered iteration

  lemma {:induction false} SomeKeyIsBest(keys: set<Price>, side: Side)
    requires keys != {}
    ensures exists p :: p in keys && forall q :: q in keys ==> !Better(side, q, p)
  {
    assert (forall x :: x !in keys) ==> keys == {};
    var x :| x in keys;
    var rest := keys - {x};
    if rest == {} {
      assert keys == {x};
      assert x in keys && forall q :: q in keys ==> !Better(side, q, x);
    } else {
      SomeKeyIsBest(rest, side);
      var p :| p in rest && forall q :: q in rest ==> !Better(side, q, p);
      var best := if Better(side, x, p) then x else p;
      forall q | q in keys
        ensures !Better(side, q, best)
      {
        assert q == x || q in rest;
      }
      assert best in keys;
    }
  }

  /** The best key that comes strictly after `after` (from the start when there is none):
      begin/next over the asks, rbegin/next over the bids. */
  function NextKey(keys: set<Price>, side: Side, after: Option<Price>): (r: Option<Price>)
    ensures r.Some? ==> r.value in keys && (after.Some? ==> Better(side, after.value, r.value))
    ensures r.Some? ==> forall q :: q in keys && (after.Some? ==> Better(side, after.value, q)) ==>
              !Better(side, q, r.value)
    ensures r.None? ==> forall q :: q in keys ==> after.Some? && !Better(side, after.value, q)
  {
    var later := set p | p in keys && (after.Some? ==> Better(side, after.value, p));
    if later == {} then
      assert forall q :: q in keys ==> q !in later;
      None
    else
      SomeKeyIsBest(later, side);
      var p :| p in later && forall q :: q in later ==> !Better(side, q, p);
      Some(p)
  }

  // ---------------------------------------------------------------- one queue of the flat list

  ghost function QueueAt(rs: seq<OrderRec>, side: Side, p: Price): seq<OrderRec> {
    if rs == [] then []
    else if rs[0].side == side && rs[0].price == p then [rs[0]] + QueueAt(rs[1..], side, p)
    else QueueAt(rs[1..], side, p)
  }

  ghost function SumRemaining(rs: seq<OrderRec>): Quantity {
    if rs == [] then 0 else rs[0].Remaining() + SumRemaining(rs[1..])
  }

  lemma {:induction false} QueueMember(rs: seq<OrderRec>, side: Side, p: Price, j: nat) returns (i: nat)
    requires j < |QueueAt(rs, side, p)|
    ensures i < |rs| && rs[i] == QueueAt(rs, side, p)[j] && rs[i].side == side && rs[i].price == p
  {
    if rs[0].side == side && rs[0].price == p {
      if j == 0 {
        i := 0;
      } else {
        var i' := QueueMember(rs[1..], side, p, j - 1);
        i := i' + 1;
      }
    } else {
      var i' := QueueMember(rs[1..], side, p, j);
      i := i' + 1;
    }
  }

  lemma {:induction false} QueueConcat(a: seq<OrderRec>, c: seq<OrderRec>, side: Side, p: Price)
    ensures QueueAt(a + c, side, p) == QueueAt(a, side, p) + QueueAt(c, side, p)
  {
    if a == [] {
      assert a + c == c;
    } else {
      var all := a + c;
      assert all[0] == a[0] && all[1..] == a[1..] + c;
      QueueConcat(a[1..], c, side, p);
    }
  }

  lemma {:induction false} SumConcat(a: seq<OrderRec>, c: seq<OrderRec>)
    ensures SumRemaining(a + c) == SumRemaining(a) + SumRemaining(c)
  {
    if a == [] {
      assert a + c == c;
    } else {
      assert (a + c)[1..] == a[1..] + c;
      SumConcat(a[1..], c);
    }
  }

  lemma QueueSplit(rs: seq<OrderRec>, k: nat, side: Side, p: Price)
    requires k < |rs|
    ensures QueueAt(rs, side, p)
              == QueueAt(rs[..k], side, p) + QueueAt([rs[k]], side, p) + QueueAt(rs[k + 1..], side, p)
    ensures QueueAt(RemoveAt(rs, k), side, p) == QueueAt(rs[..k], side, p) + QueueAt(rs[k + 1..], side, p)
  {
    assert rs == rs[..k] + ([rs[k]] + rs[k + 1..]);
    QueueConcat(rs[..k], [rs[k]] + rs[k + 1..], side, p);
    QueueConcat([rs[k]], rs[k + 1..], side, p);
    QueueConcat(rs[..k], rs[k + 1..], side, p);
  }

  lemma QueueUpdate(rs: seq<OrderRec>, k: nat, o: OrderRec, side: Side, p: Price)
    requires k < |rs|
    ensures QueueAt(rs[k := o], side, p)
              == QueueAt(rs[..k], side, p) + QueueAt([o], side, p) + QueueAt(rs[k + 1..], side, p)
  {
    var rs' := rs[k := o];
    QueueSplit(rs', k, side, p);
    assert rs'[..k] == rs[..k] && rs'[k + 1..] == rs[k + 1..];
  }

  // ---------------------------------------------------------------- agreement

  ghost predicate IndexAgrees(index: map<OrderId, Order>, rs: seq<OrderRec>) {
    index.Keys == Ids(rs) && forall id :: id in index ==> index[id].id == id
  }

  ghost predicate Refers(orders: seq<Order>, q: seq<OrderRec>, index: map<OrderId, Order>) {
    && |orders| == |q|
    && forall j :: 0 <= j < |q| ==> q[j].id in index && orders[j] == index[q[j].id]
  }

  ghost predicate LevelAgrees(l: PriceLevel, q: seq<OrderRec>, p: Price, index: map<OrderId, Order>) {
    l.price == p && Refers(l.orders, q, index) && l.totalQty == SumRemaining(q)
  }

  /** One side's levels are the queues of the flat list: right key, right orders in arrival order,
      right cached total, and no empty level except possibly at `hole`. */
  ghost predicate LevelsAgree(levels: Levels, side: Side, rs: seq<OrderRec>, index: map<OrderId, Order>,
                              hole: Option<Price>) {
    && (forall p :: p in levels ==> LevelAgrees(levels[p], QueueAt(rs, side, p), p, index))
    && (forall p :: p in levels ==> QueueAt(rs, side, p) != [] || hole == Some(p))
    && (forall i :: 0 <= i < |rs| && rs[i].side == side ==> rs[i].price in levels)
  }

  /** A level whose queue did not change still agrees after the index lost other orders. */
  lemma LevelUnaffected(l: PriceLevel, p: Price, side: Side, rs: seq<OrderRec>, index: map<OrderId, Order>,
                        rs': seq<OrderRec>, index': map<OrderId, Order>)
    requires LevelAgrees(l, QueueAt(rs, side, p), p, index)
    requires QueueAt(rs', side, p) == QueueAt(rs, side, p)
    requires Ids(rs') <= index'.Keys
    requires forall id :: id in index && id in index' ==> index'[id] == index[id]
    ensures LevelAgrees(l, QueueAt(rs', side, p), p, index')
  {
    var q := QueueAt(rs', side, p);
    forall j | 0 <= j < |q|
      ensures q[j].id in index' && l.orders[j] == index'[q[j].id]
    {
      var i := QueueMember(rs', side, p, j);
    }
  }

  lemma RemovedFromIndex(rs: seq<OrderRec>, index: map<OrderId, Order>, k: nat)
    requires k < |rs| && Distinct(rs) && IndexAgrees(index, rs)
    ensures IndexAgrees(index - {rs[k].id}, RemoveAt(rs, k))
  {
  }

  /** Taking an order out of the list and the index changes only its own level. */
  lemma RemovedFromOtherLevel(l: PriceLevel, p: Price, side: Side, rs: seq<OrderRec>, index: map<OrderId, Order>,
                              k: nat)
    requires k < |rs| && Distinct(rs) && IndexAgrees(index, rs)
    requires LevelAgrees(l, QueueAt(rs, side, p), p, index)
    requires !(side == rs[k].side && p == rs[k].price)
    ensures QueueAt(RemoveAt(rs, k), side, p) == QueueAt(rs, side, p)
    ensures LevelAgrees(l, QueueAt(RemoveAt(rs, k), side, p), p, index - {rs[k].id})
  {
    QueueSplit(rs, k, side, p);
    RemovedFromIndex(rs, index, k);
    LevelUnaffected(l, p, side, rs, index, RemoveAt(rs, k), index - {rs[k].id});
  }

  /** Agreement from its parts: one level replaced, the others known one by one. */
  lemma LevelsFromParts(levels: Levels, side: Side, rs: seq<OrderRec>, index: map<OrderId, Order>,
                        px: Price, l: PriceLevel, hole: Option<Price>)
    requires LevelAgrees(l, QueueAt(rs, side, px), px, index) && (QueueAt(rs, side, px) != [] || hole == Some(px))
    requires forall p :: p in levels && p != px ==> LevelAgrees(levels[p], QueueAt(rs, side, p), p, index)
    requires forall p :: p in levels && p != px ==> QueueAt(rs, side, p) != []
    requires forall i :: 0 <= i < |rs| && rs[i].side == side ==> rs[i].price in levels || rs[i].price == px
    ensures LevelsAgree(levels[px := l], side, rs, index, hole)
  {
  }

  /** The levels after the order at position k left the list, given its own level's new content. */
  lemma LevelsAfterRemove(levels: Levels, side: Side, rs: seq<OrderRec>, index: map<OrderId, Order>,
                          hole: Option<Price>, k: nat, l': PriceLevel)
    requires k < |rs| && Distinct(rs) && IndexAgrees(index, rs) && LevelsAgree(levels, side, rs, index, hole)
    requires rs[k].side == side && (hole.Some? ==> hole.value == rs[k].price)
    requires LevelAgrees(l', QueueAt(RemoveAt(rs, k), side, rs[k].price), rs[k].price, index - {rs[k].id})
    ensures LevelsAgree(levels[rs[k].price := l'], side, RemoveAt(rs, k), index - {rs[k].id}, Some(rs[k].price))
  {
    hide LevelAgrees, IndexAgrees, Distinct, QueueAt;
    var px, rs', index' := rs[k].price, RemoveAt(rs, k), index - {rs[k].id};
    forall p | p in levels && p != px
      ensures LevelAgrees(levels[p], QueueAt(rs', side, p), p, index') && QueueAt(rs', side, p) != []
    {
      RemovedFromOtherLevel(levels[p], p, side, rs, index, k);
    }
    forall i | 0 <= i < |rs'| && rs'[i].side == side
      ensures rs'[i].price in levels
    {
      assert rs'[i] == rs[if i < k then i else i + 1];
    }
    LevelsFromParts(levels, side, rs', index', px, l', Some(px));
  }

  lemma OtherSideAfterRemove(levels: Levels, side: Side, rs: seq<OrderRec>, index: map<OrderId, Order>, k: nat)
    requires k < |rs| && Distinct(rs) && IndexAgrees(index, rs) && LevelsAgree(levels, side, rs, index, None)
    requires rs[k].side != side
    ensures LevelsAgree(levels, side, RemoveAt(rs, k), index - {rs[k].id}, None)
  {
    hide LevelAgrees, IndexAgrees, Distinct, QueueAt;
    var rs', index' := RemoveAt(rs, k), index - {rs[k].id};
    forall p | p in levels
      ensures LevelAgrees(levels[p], QueueAt(rs', side, p), p, index') && QueueAt(rs', side, p) != []
    {
      RemovedFromOtherLevel(levels[p], p, side, rs, index, k);
    }
    forall i | 0 <= i < |rs'| && rs'[i].side == side
      ensures rs'[i].price in levels
    {
      assert rs'[i] == rs[if i < k then i else i + 1];
    }
  }

  lemma QueueAfterUpdate(rs: seq<OrderRec>, k: nat, o: OrderRec, side: Side, p: Price)
    requires k < |rs| && o.id == rs[k].id && o.side == rs[k].side && o.price == rs[k].price
    ensures var q, q' := QueueAt(rs, side, p), QueueAt(rs[k := o], side, p);
            && |q'| == |q| && (forall j :: 0 <= j < |q| ==> q'[j].id == q[j].id)
            && (side != rs[k].side || p != rs[k].price ==> q' == q)
            && (side == rs[k].side && p == rs[k].price ==>
                 SumRemaining(q') == SumRemaining(q) - rs[k].Remaining() + o.Remaining())
  {
    QueueSplit(rs, k, side, p);
    QueueUpdate(rs, k, o, side, p);
    var a, c := QueueAt(rs[..k], side, p), QueueAt(rs[k + 1..], side, p);
    if side == rs[k].side && p == rs[k].price {
      SumConcat(a, [rs[k]]);
      SumConcat(a + [rs[k]], c);
      SumConcat(a, [o]);
      SumConcat(a + [o], c);
      assert QueueAt([rs[k]], side, p) == [rs[k]] && QueueAt([o], side, p) == [o];
      assert SumRemaining([rs[k]]) == rs[k].Remaining() && SumRemaining([o]) == o.Remaining();
    }
  }

  lemma IndexAfterUpdate(rs: seq<OrderRec>, index: map<OrderId, Order>, k: nat, o: OrderRec)
    requires k < |rs| && IndexAgrees(index, rs) && o.id == rs[k].id
    ensures IndexAgrees(index, rs[k := o])
  {
    var rs' := rs[k := o];
    forall x | x in rs
      ensures exists x' :: x' in rs' && x'.id == x.id
    {
      var i :| 0 <= i < |rs| && rs[i] == x;
      assert rs'[i] in rs' && rs'[i].id == x.id;
    }
  }

  /** The levels after the order at position k was filled in part. */
  lemma LevelsAfterUpdate(levels: Levels, rs: seq<OrderRec>, index: map<OrderId, Order>,
                          hole: Option<Price>, k: nat, o: OrderRec)
    requires k < |rs| && LevelsAgree(levels, rs[k].side, rs, index, hole)
    requires o == rs[k].(filled := o.filled, status := o.status) && (hole.Some? ==> hole.value == rs[k].price)
    ensures LevelsAgree(levels[rs[k].price := Reduced(levels[rs[k].price], rs[k].Remaining() - o.Remaining())],
                        rs[k].side, rs[k := o], index, Some(rs[k].price))
  {
    var rs', side, px := rs[k := o], rs[k].side, rs[k].price;
    assert px in levels && LevelAgrees(levels[px], QueueAt(rs, side, px), px, index);
    var l := Reduced(levels[px], rs[k].Remaining() - o.Remaining());
    QueueAfterUpdate(rs, k, o, side, px);
    forall p | p in levels && p != px
      ensures LevelAgrees(levels[p], QueueAt(rs', side, p), p, index) && QueueAt(rs', side, p) != []
    {
      QueueAfterUpdate(rs, k, o, side, p);
    }
    forall i | 0 <= i < |rs'| && rs'[i].side == side
      ensures rs'[i].price in levels
    {
      assert rs[i].side == side && rs[i].price in levels;
    }
    LevelsFromParts(levels, side, rs', index, px, l, Some(px));
  }

  lemma OtherSideAfterUpdate(levels: Levels, side: Side, rs: seq<OrderRec>, index: map<OrderId, Order>, k: nat,
                             o: OrderRec)
    requires k < |rs| && LevelsAgree(levels, side, rs, index, None) && side != rs[k].side
    requires o == rs[k].(filled := o.filled, status := o.status)
    ensures LevelsAgree(levels, side, rs[k := o], index, None)
  {
    forall p | p in levels
      ensures QueueAt(rs[k := o], side, p) == QueueAt(rs, side, p)
    {
      QueueAfterUpdate(rs, k, o, side, p);
    }
  }

  lemma IndexAfterAppend(rs: seq<OrderRec>, index: map<OrderId, Order>, o: OrderRec, r: Order)
    requires IndexAgrees(index, rs) && o.id !in index && r.id == o.id
    ensures IndexAgrees(index[o.id := r], rs + [o])
  {
  }

  lemma QueueAfterAppend(rs: seq<OrderRec>, o: OrderRec, side: Side, p: Price)
    ensures var q := QueueAt(rs, side, p);
            if side == o.side && p == o.price
            then QueueAt(rs + [o], side, p) == q + [o] && SumRemaining(q + [o]) == SumRemaining(q) + o.Remaining()
            else QueueAt(rs + [o], side, p) == q
  {
    QueueConcat(rs, [o], side, p);
    SumConcat(QueueAt(rs, side, p), [o]);
  }

  /** add_to_book's level: the existing one or a new empty one, with the order pushed at the back. */
  function PushedLevel(levels: Levels, o: OrderRec, r: Order): PriceLevel {
    var l := if o.price in levels then levels[o.price] else PriceLevel(o.price, [], 0);
    PriceLevel(o.price, l.orders + [r], l.totalQty + o.Remaining())
  }

  lemma LevelsAfterAppend(levels: Levels, rs: seq<OrderRec>, index: map<OrderId, Order>, o: OrderRec, r: Order)
    requires LevelsAgree(levels, o.side, rs, index, None) && IndexAgrees(index, rs)
    requires o.id !in index && r.id == o.id
    ensures LevelsAgree(levels[o.price := PushedLevel(levels, o, r)], o.side, rs + [o], index[o.id := r], None)
  {
    var rs', index', side := rs + [o], index[o.id := r], o.side;
    QueueAfterAppend(rs, o, side, o.price);
    if o.price !in levels && QueueAt(rs, side, o.price) != [] {
      var i := QueueMember(rs, side, o.price, 0);
    }
    forall p | p in levels && p != o.price
      ensures LevelAgrees(levels[p], QueueAt(rs', side, p), p, index') && QueueAt(rs', side, p) != []
    {
      QueueAfterAppend(rs, o, side, p);
      LevelUnaffected(levels[p], p, side, rs, index, rs', index');
    }
    LevelsFromParts(levels, side, rs', index', o.price, PushedLevel(levels, o, r), None);
  }

  lemma OtherSideAfterAppend(levels: Levels, side: Side, rs: seq<OrderRec>, index: map<OrderId, Order>, o: OrderRec,
                             r: Order)
    requires LevelsAgree(levels, side, rs, index, None) && IndexAgrees(index, rs)
    requires o.id !in index && r.id == o.id && side != o.side
    ensures LevelsAgree(levels, side, rs + [o], index[o.id := r], None)
  {
    forall p | p in levels
      ensures LevelAgrees(levels[p], QueueAt(rs + [o], side, p), p, index[o.id := r])
                && QueueAt(rs + [o], side, p) != []
    {
      QueueAfterAppend(rs, o, side, p);
      LevelUnaffected(levels[p], p, side, rs, index, rs + [o], index[o.id := r]);
    }
  }

  /** Once the level at the hole has its final content, it is kept or erased. */
  lemma HoleCloses(levels: Levels, side: Side, rs: seq<OrderRec>, index: map<OrderId, Order>, px: Price)
    requires LevelsAgree(levels, side, rs, index, Some(px)) && px in levels
    ensures levels[px].orders == [] <==> QueueAt(rs, side, px) == []
    ensures LevelsAgree(if levels[px].orders == [] then levels - {px} else levels, side, rs, index, None)
  {
    assert LevelAgrees(levels[px], QueueAt(rs, side, px), px, index);
    forall i | 0 <= i < |rs| && rs[i].side == side && rs[i].price == px
      ensures QueueAt(rs, side, px) != []
    {
      QueueSplit(rs, i, side, px);
    }
  }

  /** No order before the best one waits at the best price. */
  lemma NobodyWaitsBeforeBest(rs: seq<OrderRec>, side: Side)
    requires Best(rs, side) < |rs|
    ensures QueueAt(rs[..Best(rs, side)], side, rs[Best(rs, side)].price) == []
  {
    var k := Best(rs, side);
    if QueueAt(rs[..k], side, rs[k].price) != [] {
      var i := QueueMember(rs[..k], side, rs[k].price, 0);
      assert false;
    }
  }

  /** An order at a price no order of its side is better than: the rescan finds that price. */
  lemma BestPriceIs(rs: seq<OrderRec>, side: Side, px: Price)
    requires QueueAt(rs, side, px) != []
    requires forall i :: 0 <= i < |rs| && rs[i].side == side ==> !Better(side, rs[i].price, px)
    ensures Best(rs, side) < |rs| && rs[Best(rs, side)].price == px
  {
    hide Best;
    var i := QueueMember(rs, side, px, 0);
    assert Best(rs, side) < |rs|;
  }

  /** The order the rescan picks heads the queue at its price, and taking it out leaves the rest. */
  lemma BestHeadsQueue(rs: seq<OrderRec>, side: Side)
    requires Best(rs, side) < |rs|
    ensures var k := Best(rs, side);
            var px := rs[k].price;
            && QueueAt(rs[..k], side, px) == []
            && QueueAt(rs, side, px) == [rs[k]] + QueueAt(rs[k + 1..], side, px)
            && QueueAt(RemoveAt(rs, k), side, px) == QueueAt(rs[k + 1..], side, px)
  {
    hide Best, QueueAt;
    var k := Best(rs, side);
    NobodyWaitsBeforeBest(rs, side);
    QueueSplit(rs, k, side, rs[k].price);
    QueueOfOne(rs[k]);
  }

  /** At the best level, the front of the queue is the order the rescan picks. */
  lemma BestIsFront(levels: Levels, side: Side, rs: seq<OrderRec>, index: map<OrderId, Order>, hole: Option<Price>,
                    px: Price)
    requires LevelsAgree(levels, side, rs, index, hole) && px in levels && levels[px].orders != []
    requires forall p :: p in levels ==> !Better(side, p, px)
    ensures var k := Best(rs, side);
            && k < |rs| && rs[k].price == px
            && QueueAt(rs[..k], side, px) == []
            && QueueAt(rs, side, px) == [rs[k]] + QueueAt(rs[k + 1..], side, px)
            && QueueAt(RemoveAt(rs, k), side, px) == QueueAt(rs[k + 1..], side, px)
            && rs[k].id in index && levels[px].orders[0] == index[rs[k].id]
  {
    hide Best, QueueAt, SumRemaining;
    var k := Best(rs, side);
    assert LevelAgrees(levels[px], QueueAt(rs, side, px), px, index);
    BestPriceIs(rs, side, px);
    BestHeadsQueue(rs, side);
    assert QueueAt(rs, side, px)[0] == rs[k];
  }

  lemma QueueOfOne(o: OrderRec)
    ensures QueueAt([o], o.side, o.price) == [o]
  {
  }

  /** Which object trades next, and that it is no other order's object. */
  lemma FrontIsBest(b: Book, levels: Levels, side: Side, index: map<OrderId, Order>, px: Price, k: nat)
    requires WellFormed(b) && IndexAgrees(index, b.resting) && LevelsAgree(levels, side, b.resting, index, Some(px))
    requires px in levels && levels[px].orders != [] && (forall p :: p in levels ==> !Better(side, p, px))
    requires k == Best(b.resting, side)
    ensures Distinct(b.resting)
    ensures k < |b.resting| && b.resting[k].price == px && b.resting[k].id !in b.gone
    ensures b.resting[k].id in index && levels[px].orders[0] == index[b.resting[k].id]
  {
    BestIsFront(levels, side, b.resting, index, Some(px), px);
  }

  lemma DistinctFrom(rs: seq<OrderRec>, k: nat)
    requires Distinct(rs) && k < |rs|
    ensures forall i :: 0 <= i < |rs| && i != k ==> rs[i].id != rs[k].id
  {
  }

  lemma TakerNotIndexed(b: Book, o: OrderRec, index: map<OrderId, Order>)
    requires IndexAgrees(index, b.resting) && Taking(b, o)
    ensures o.id !in index
  {
  }

  /** Trading q off a level's total, and popping its front order once that order is done. */
  function Reduced(l: PriceLevel, q: Quantity): PriceLevel {
    l.(totalQty := l.totalQty - q)
  }

  function Popped(l: PriceLevel): PriceLevel
    requires l.orders != []
  {
    l.(orders := l.orders[1..])
  }

  lemma FrontLevelPopped(l: PriceLevel, rs: seq<OrderRec>, side: Side, index: map<OrderId, Order>, k: nat)
    requires k < |rs| && Distinct(rs) && IndexAgrees(index, rs)
    requires LevelAgrees(l, QueueAt(rs, side, rs[k].price), rs[k].price, index) && l.orders != []
    requires QueueAt(rs, side, rs[k].price) == [rs[k]] + QueueAt(RemoveAt(rs, k), side, rs[k].price)
    ensures LevelAgrees(Popped(Reduced(l, rs[k].Remaining())), QueueAt(RemoveAt(rs, k), side, rs[k].price), rs[k].price,
                        index - {rs[k].id})
  {
    var rs', index' := RemoveAt(rs, k), index - {rs[k].id};
    var q := QueueAt(rs', side, rs[k].price);
    forall j | 0 <= j < |q|
      ensures q[j].id in index' && l.orders[1..][j] == index'[q[j].id]
    {
      var i := QueueMember(rs', side, rs[k].price, j);
      assert rs[if i < k then i else i + 1] == q[j] == QueueAt(rs, side, rs[k].price)[j + 1];
    }
  }

  /** Both sides and the index after the front order of the best level was filled and left. */
  lemma FrontLeaves(levels: Levels, other: Levels, side: Side, rs: seq<OrderRec>, index: map<OrderId, Order>,
                    px: Price, k: nat)
    requires Distinct(rs) && IndexAgrees(index, rs) && k == Best(rs, side) < |rs|
    requires LevelsAgree(levels, side, rs, index, Some(px)) && LevelsAgree(other, side.Opposite(), rs, index, None)
    requires px in levels && levels[px].orders != [] && forall p :: p in levels ==> !Better(side, p, px)
    ensures IndexAgrees(index - {rs[k].id}, RemoveAt(rs, k))
    ensures LevelsAgree(levels[px := Popped(Reduced(levels[px], rs[k].Remaining()))], side, RemoveAt(rs, k),
              index - {rs[k].id}, Some(px))
    ensures LevelsAgree(other, side.Opposite(), RemoveAt(rs, k), index - {rs[k].id}, None)
  {
    BestIsFront(levels, side, rs, index, Some(px), px);
    RemovedFromIndex(rs, index, k);
    FrontLevelPopped(levels[px], rs, side, index, k);
    LevelsAfterRemove(levels, side, rs, index, Some(px), k, Popped(Reduced(levels[px], rs[k].Remaining())));
    OtherSideAfterRemove(other, side.Opposite(), rs, index, k);
  }

  /** Both sides and the index after the front order of the best level was filled in part. */
  lemma FrontShrinks(levels: Levels, other: Levels, side: Side, rs: seq<OrderRec>, index: map<OrderId, Order>,
                     px: Price, k: nat, o: OrderRec)
    requires IndexAgrees(index, rs) && k == Best(rs, side) < |rs|
    requires LevelsAgree(levels, side, rs, index, Some(px)) && LevelsAgree(other, side.Opposite(), rs, index, None)
    requires px in levels && levels[px].orders != [] && forall p :: p in levels ==> !Better(side, p, px)
    requires o == rs[k].(filled := o.filled, status := o.status)
    ensures IndexAgrees(index, rs[k := o])
    ensures LevelsAgree(levels[px := Reduced(levels[px], rs[k].Remaining() - o.Remaining())], side, rs[k := o],
              index, Some(px))
    ensures LevelsAgree(other, side.Opposite(), rs[k := o], index, None)
  {
    BestIsFront(levels, side, rs, index, Some(px), px);
    IndexAfterUpdate(rs, index, k, o);
    LevelsAfterUpdate(levels, rs, index, Some(px), k, o);
    OtherSideAfterUpdate(other, side.Opposite(), rs, index, k, o);
  }

  /** No taker can trade against an empty side. */
  lemma NoOrdersNoLevels(levels: Levels, side: Side, index: map<OrderId, Order>)
    requires LevelsAgree(levels, side, [], index, None)
    ensures levels == map[]
  {
    assert forall p :: QueueAt([], side, p) == [];
    assert forall p :: p !in levels;
  }

  lemma EmptySideHasNoBest(levels: Levels, side: Side, rs: seq<OrderRec>, index: map<OrderId, Order>)
    requires LevelsAgree(levels, side, rs, index, None) && levels.Keys == {}
    ensures Best(rs, side) == |rs|
  {
  }

  /** With no empty level, the best key is the price of the order that trades next. */
  lemma BestKeyIsBestPrice(levels: Levels, side: Side, rs: seq<OrderRec>, index: map<OrderId, Order>, px: Price)
    requires LevelsAgree(levels, side, rs, index, None) && px in levels && forall p :: p in levels ==>
               !Better(side, p, px)
    ensures Best(rs, side) < |rs| && rs[Best(rs, side)].price == px
  {
    assert LevelAgrees(levels[px], QueueAt(rs, side, px), px, index);
    BestIsFront(levels, side, rs, index, None, px);
  }

  lemma WellFormedIsDistinct(b: Book)
    requires WellFormed(b)
    ensures Distinct(b.resting)
  {
  }

  lemma LevelOf(levels: Levels, rs: seq<OrderRec>, index: map<OrderId, Order>, hole: Option<Price>, k: nat)
    requires k < |rs| && LevelsAgree(levels, rs[k].side, rs, index, hole)
    ensures rs[k].price in levels
    ensures LevelAgrees(levels[rs[k].price], QueueAt(rs, rs[k].side, rs[k].price), rs[k].price, index)
  {
  }

  /** Taking an order out of the list takes it out of its level's queue, and nothing else. */
  lemma LeavesQueue(rs: seq<OrderRec>, k: nat) returns (j: nat)
    requires k < |rs| && Distinct(rs)
    ensures var q := QueueAt(rs, rs[k].side, rs[k].price);
            && j < |q| && q[j] == rs[k]
            && QueueAt(RemoveAt(rs, k), rs[k].side, rs[k].price) == RemoveAt(q, j)
            && SumRemaining(RemoveAt(q, j)) == SumRemaining(q) - rs[k].Remaining()
  {
    hide Distinct;
    var side, p := rs[k].side, rs[k].price;
    var a, c := QueueAt(rs[..k], side, p), QueueAt(rs[k + 1..], side, p);
    var q := QueueAt(rs, side, p);
    QueueSplit(rs, k, side, p);
    assert QueueAt([rs[k]], side, p) == [rs[k]];
    j := |a|;
    assert q == a + [rs[k]] + c && q[j] == rs[k];
    assert RemoveAt(q, j) == a + c;
    SumConcat(a, [rs[k]]);
    SumConcat(a + [rs[k]], c);
    SumConcat(a, c);
  }

  /** Where an order stands in its level's queue, and the level once it has been taken out. */
  lemma PlaceInQueue(l: PriceLevel, rs: seq<OrderRec>, index: map<OrderId, Order>, k: nat) returns (j: nat)
    requires k < |rs| && Distinct(rs) && IndexAgrees(index, rs)
    requires LevelAgrees(l, QueueAt(rs, rs[k].side, rs[k].price), rs[k].price, index)
    ensures j < |l.orders| && rs[k].id in index && l.orders[j] == index[rs[k].id]
    ensures forall i :: 0 <= i < |l.orders| && i != j ==> l.orders[i].id != rs[k].id
    ensures LevelAgrees(PriceLevel(l.price, RemoveAt(l.orders, j), l.totalQty - rs[k].Remaining()),
                        QueueAt(RemoveAt(rs, k), rs[k].side, rs[k].price), rs[k].price, index - {rs[k].id})
  {
    hide QueueAt, SumRemaining, Distinct;
    var side, p := rs[k].side, rs[k].price;
    var q := QueueAt(rs, side, p);
    j := LeavesQueue(rs, k);
    RemovedFromIndex(rs, index, k);
    forall i | 0 <= i < |RemoveAt(q, j)|
      ensures RemoveAt(q, j)[i].id in index - {rs[k].id}
    {
      var m := QueueMember(RemoveAt(rs, k), side, p, i);
    }
    forall i | 0 <= i < |q| && i != j
      ensures l.orders[i].id != rs[k].id
    {
      assert q[i] == RemoveAt(q, j)[if i < j then i else i - 1];
    }
  }

  /** The level map with one level replaced, or erased when that left it empty. */
  function WithLevel(levels: Levels, l: PriceLevel): Levels {
    if l.orders == [] then levels - {l.price} else levels[l.price := l]
  }

  /** Both sides and the index after the order at position k was taken out of its queue. */
  lemma OrderLeaves(levels: Levels, other: Levels, rs: seq<OrderRec>, index: map<OrderId, Order>, k: nat, l: PriceLevel)
    requires k < |rs| && Distinct(rs) && IndexAgrees(index, rs) && LevelsAgree(levels, rs[k].side, rs, index, None)
    requires LevelsAgree(other, rs[k].side.Opposite(), rs, index, None)
    requires LevelAgrees(l, QueueAt(RemoveAt(rs, k), rs[k].side, rs[k].price), rs[k].price, index - {rs[k].id})
    ensures IndexAgrees(index - {rs[k].id}, RemoveAt(rs, k))
    ensures LevelsAgree(WithLevel(levels, l), rs[k].side, RemoveAt(rs, k), index - {rs[k].id}, None)
    ensures LevelsAgree(other, rs[k].side.Opposite(), RemoveAt(rs, k), index - {rs[k].id}, None)
  {
    hide LevelsAgree, IndexAgrees, Distinct, QueueAt, Refers;
    var px, index' := rs[k].price, index - {rs[k].id};
    LevelsAfterRemove(levels, rs[k].side, rs, index, None, k, l);
    OtherSideAfterRemove(other, rs[k].side.Opposite(), rs, index, k);
    RemovedFromIndex(rs, index, k);
    HoleCloses(levels[px := l], rs[k].side, RemoveAt(rs, k), index', px);
    assert levels[px := l] - {px} == levels - {px};
  }

  // ---------------------------------------------------------------- snapshots

  datatype L2Level = L2Level(price: Price, qty: Quantity, orderCount: nat)

  /** The total remainder and the number of the orders resting on a side at the level's price. */
  ghost predicate IsAggregate(l: L2Level, rs: seq<OrderRec>, side: Side) {
    var q := QueueAt(rs, side, l.price);
    q != [] && l.qty == SumRemaining(q) && l.orderCount == |q|
  }

  ghost function Prices(top: seq<L2Level>): set<Price> {
    set l | l in top :: l.price
  }

  lemma PricesGrow(top: seq<L2Level>, l: L2Level)
    ensures Prices(top + [l]) == Prices(top) + {l.price}
  {
  }

  lemma PricesAreShown(top: seq<L2Level>)
    ensures forall p :: p in Prices(top) <==> exists i :: 0 <= i < |top| && top[i].price == p
  {
    forall p | p in Prices(top)
      ensures exists i :: 0 <= i < |top| && top[i].price == p
    {
      var l :| l in top && l.price == p;
    }
    forall i | 0 <= i < |top|
      ensures top[i].price in Prices(top)
    {
      assert top[i] in top;
    }
  }

  /** Cached totals and queue lengths are the aggregates of the flat list. */
  lemma LevelsAreAggregates(levels: Levels, side: Side, rs: seq<OrderRec>, index: map<OrderId, Order>)
    requires LevelsAgree(levels, side, rs, index, None)
    ensures forall p :: p in levels ==> IsAggregate(L2Level(p, levels[p].totalQty, |levels[p].orders|), rs, side)
    ensures forall k :: 0 <= k < |rs| && rs[k].side == side ==> rs[k].price in levels
  {
  }

  /** The aggregates of the best prices of a side, strictly sorted; every price left out is worse
      than all of them, and is left out only because the depth was reached. */
  ghost predicate IsTop(top: seq<L2Level>, rs: seq<OrderRec>, side: Side, depth: int) {
    && |top| <= (if depth > 0 then depth else 0)
    && (forall i :: 0 <= i < |top| ==> IsAggregate(top[i], rs, side))
    && (forall i, j :: 0 <= i < j < |top| ==> Better(side, top[i].price, top[j].price))
    && (forall k :: 0 <= k < |rs| && rs[k].side == side ==>
          || (exists i :: 0 <= i < |top| && top[i].price == rs[k].price)
          || (|top| >= depth && forall i :: 0 <= i < |top| ==> Better(side, top[i].price, rs[k].price)))
  }

  // ---------------------------------------------------------------- cached totals and eligible quantity

  predicate Ahead(side: Side, p: Price, bound: Option<Price>) {
    bound.Some? ==> Better(side, p, bound.value)
  }

  /** Quantity resting on a side at prices strictly better than the bound (all of it without one). */
  ghost function QtyAhead(rs: seq<OrderRec>, side: Side, bound: Option<Price>): Quantity {
    if rs == [] then 0
    else
      (if rs[0].side == side && Ahead(side, rs[0].price, bound) then rs[0].Remaining() else 0)
      + QtyAhead(rs[1..], side, bound)
  }

  lemma {:induction false} NothingAhead(rs: seq<OrderRec>, side: Side, bound: Option<Price>)
    requires forall i :: 0 <= i < |rs| && rs[i].side == side ==> !Ahead(side, rs[i].price, bound)
    ensures QtyAhead(rs, side, bound) == 0
  {
    if rs != [] {
      NothingAhead(rs[1..], side, bound);
    }
  }

  /** Moving the bound from one level to the next adds that level's total. */
  lemma {:induction false} AheadOfNext(rs: seq<OrderRec>, side: Side, px: Price, next: Option<Price>)
    requires next.Some? ==> Better(side, px, next.value)
    requires forall i :: 0 <= i < |rs| && rs[i].side == side && Ahead(side, rs[i].price, next) ==>
               !Better(side, px, rs[i].price)
    ensures QtyAhead(rs, side, next) == QtyAhead(rs, side, Some(px)) + SumRemaining(QueueAt(rs, side, px))
  {
    if rs != [] {
      AheadOfNext(rs[1..], side, px, next);
    }
  }

  /** Everything ahead of the bound is within the taker's limit, so it is part of what is eligible;
      it is all of it when nothing within the limit lies beyond the bound. */
  lemma {:induction false} AheadIsEligible(rs: seq<OrderRec>, taker: Side, limit: Option<Price>, bound: Option<Price>)
    requires forall i :: 0 <= i < |rs| ==> rs[i].Remaining() >= 0
    requires forall i :: 0 <= i < |rs| && rs[i].side == taker.Opposite() && Ahead(taker.Opposite(), rs[i].price, bound)
               ==> WithinLimit(taker, limit, rs[i].price)
    ensures QtyAhead(rs, taker.Opposite(), bound) <= EligibleQty(rs, taker, limit)
    ensures (forall i :: 0 <= i < |rs| && rs[i].side == taker.Opposite() && WithinLimit(taker, limit, rs[i].price)
               ==> Ahead(taker.Opposite(), rs[i].price, bound))
            ==> QtyAhead(rs, taker.Opposite(), bound) == EligibleQty(rs, taker, limit)
  {
    if rs != [] {
      AheadIsEligible(rs[1..], taker, limit, bound);
    }
  }
}
