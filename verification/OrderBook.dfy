/**
 The matching engine as the program builds it: two maps of price levels with FIFO queues and cached
 totals, an index by id, and orders updated in place. Every operation refines the flat reference book.
 */
module OrderBooks {
  import opened Types
  import opened FlatBook
  import opened BookInvariants
  import opened PriceLevels

  class OrderBook {
    const symbol: string
    var nextTradeId: nat
    var bids: Levels
    var asks: Levels
    var orders: map<OrderId, Order>

    /** The flat book this object stands for and the callbacks made so far. */
    ghost var view: Book
    ghost var log: seq<Event>
    /** The order objects in the book, and those that have left it. */
    ghost var live: set<Order>
    ghost var done: set<Order>

    ghost function Repr(): set<object>
      reads this
    {
      {this} + live + done
    }

    /** The levels and the index agree with a flat list, except that one level may be empty. */
    ghost predicate Shaped(rs: seq<OrderRec>, side: Side, hole: Option<Price>)
      reads this`bids, this`asks, this`orders
    {
      && IndexAgrees(orders, rs)
      && LevelsAgree(bids, Buy, rs, orders, if side.Buy? then hole else None)
      && LevelsAgree(asks, Sell, rs, orders, if side.Sell? then hole else None)
    }

    /** Every order object is in the state the flat view gives it, except the one at `hand`. */
    ghost predicate Tracked(rs: seq<OrderRec>, gone: map<OrderId, OrderRec>, hand: int)
      reads this`orders, this`live, this`done, live, done
    {
      && (forall id :: id in orders ==> orders[id] in live && orders[id].id == id)
      && (forall o :: o in live ==> o.id in orders && orders[o.id] == o)
      && (forall i :: 0 <= i < |rs| ==> rs[i].id in orders && (i != hand ==> orders[rs[i].id].Rec() == rs[i]))
      && (forall o :: o in done ==> o.id in gone && gone[o.id] == o.Rec())
      && gone.Keys == set o | o in done :: o.id
    }

    ghost predicate Agrees(side: Side, hole: Option<Price>)
      reads this, live, done
    {
      && WellFormed(view) && Shaped(view.resting, side, hole) && Tracked(view.resting, view.gone, -1)
      && view.symbol == symbol && view.nextTradeId == nextTradeId && view.log == log
    }

    ghost predicate Valid()
      reads this, live, done
    {
      Agrees(Buy, None)
    }

    constructor (symbol: string)
      ensures Valid() && view == Empty(symbol) && Repr() == {this}
    {
      this.symbol := symbol;
      nextTradeId := 1;
      bids, asks, orders := map[], map[], map[];
      view, log, live, done := Empty(symbol), [], {}, {};
    }

    function SideLevels(side: Side): Levels
      reads this`bids, this`asks
    {
      if side.Buy? then bids else asks
    }

    /** A level at px, and no level of that side trades before it. */
    ghost predicate BestKey(side: Side, px: Price)
      reads this`bids, this`asks
    {
      px in SideLevels(side) && forall p :: p in SideLevels(side) ==> !Better(side, p, px)
    }

    ghost predicate AtBest(side: Side, px: Price)
      reads this`bids, this`asks
    {
      BestKey(side, px) && SideLevels(side)[px].orders != []
    }

    method SetLevels(side: Side, levels: Levels)
      modifies this`bids, this`asks
      ensures bids == (if side.Buy? then levels else old(bids))
      ensures asks == (if side.Buy? then old(asks) else levels)
    {
      if side.Buy? {
        bids := levels;
      } else {
        asks := levels;
      }
    }

    method MakeTrade(buy: Order, sell: Order, px: Price, q: Quantity) returns (t: Trade)
      requires buy != sell
      modifies this`nextTradeId, buy`filledQty, buy`status, sell`filledQty, sell`status
      ensures t == Trade(old(nextTradeId), buy.id, sell.id, symbol, px, q)
      ensures nextTradeId == old(nextTradeId) + 1
      ensures buy.Rec() == WithFill(old(buy.Rec()), q)
      ensures sell.Rec() == WithFill(old(sell.Rec()), q)
    {
      t := Trade(nextTradeId, buy.id, sell.id, symbol, px, q);
      nextTradeId := nextTradeId + 1;
      buy.filledQty := buy.filledQty + q;
      sell.filledQty := sell.filledQty + q;
      buy.status := if buy.Remaining() == 0 then Filled else PartiallyFilled;
      sell.status := if sell.Remaining() == 0 then Filled else PartiallyFilled;
    }

    /** The order callback. */
    method NotifyOrder(o: Order)
      modifies this`log
      ensures log == old(log) + [OrderEvent(o.Rec())]
    {
      log := log + [OrderEvent(o.Rec())];
    }

    /** A maker filled in part stays at the front of its level, which gives up the quantity. */
    method Shrink(maker: Order, side: Side, px: Price, q: Quantity,
                  ghost rs: seq<OrderRec>, ghost gone: map<OrderId, OrderRec>, ghost k: nat)
      requires Distinct(rs) && Shaped(rs, side, Some(px)) && k == Best(rs, side) < |rs| && Tracked(rs, gone, k)
      requires AtBest(side, px)
      requires maker in live && maker.Rec() == WithFill(rs[k], q)
      modifies this`bids, this`asks
      ensures Shaped(rs[k := maker.Rec()], side, Some(px)) && Tracked(rs[k := maker.Rec()], gone, -1)
      ensures SideLevels(side).Keys == old(SideLevels(side).Keys)
    {
      hide LevelsAgree, IndexAgrees, Distinct, Best;
      var levels := SideLevels(side);
      FrontShrinks(levels, SideLevels(side.Opposite()), side, rs, orders, px, k, maker.Rec());
      SetLevels(side, levels[px := Reduced(levels[px], q)]);
    }

    /** Drop an order from the index; the orders around it are unaffected. */
    method Unindex(order: Order, ghost rs: seq<OrderRec>, ghost gone: map<OrderId, OrderRec>, ghost k: nat)
      requires Distinct(rs) && k < |rs| && Tracked(rs, gone, k) && order in live && order.id == rs[k].id
      modifies this`orders, this`live
      ensures Tracked(RemoveAt(rs, k), gone, -1)
      ensures orders == old(orders) - {order.id} && live == old(live) - {order}
    {
      DistinctFrom(rs, k);
      orders := orders - {order.id};
      live := live - {order};
    }

    ghost method MarkDone(order: Order, rs: seq<OrderRec>, gone: map<OrderId, OrderRec>)
      requires Tracked(rs, gone, -1) && order.id !in gone
      modifies this`done
      ensures Tracked(rs, gone[order.id := order.Rec()], -1) && done == old(done) + {order}
    {
      done := done + {order};
    }

    /** A finished maker leaves its level and the index. */
    method Pop(maker: Order, side: Side, px: Price, q: Quantity,
               ghost rs: seq<OrderRec>, ghost gone: map<OrderId, OrderRec>, ghost k: nat)
      requires Distinct(rs) && Shaped(rs, side, Some(px)) && k == Best(rs, side) < |rs| && Tracked(rs, gone, k)
      requires AtBest(side, px)
      requires maker in live && maker.Rec() == WithFill(rs[k], q) && q == rs[k].Remaining() && maker.id !in gone
      modifies this`bids, this`asks, this`orders, this`live, this`done
      ensures Shaped(RemoveAt(rs, k), side, Some(px)) && Tracked(RemoveAt(rs, k), gone[maker.id := maker.Rec()], -1)
      ensures SideLevels(side).Keys == old(SideLevels(side).Keys)
      ensures live == old(live) - {maker} && done == old(done) + {maker}
    {
      hide LevelsAgree, IndexAgrees, Distinct, Best, RemoveAt, Tracked;
      var levels := SideLevels(side);
      FrontLeaves(levels, SideLevels(side.Opposite()), side, rs, orders, px, k);
      Unindex(maker, rs, gone, k);
      MarkDone(maker, RemoveAt(rs, k), gone);
      SetLevels(side, levels[px := Popped(Reduced(levels[px], q))]);
    }

    /** After a fill the maker's level gives up the quantity, and a finished maker leaves the book. */
    method Settle(maker: Order, side: Side, px: Price, q: Quantity,
                  ghost rs: seq<OrderRec>, ghost gone: map<OrderId, OrderRec>, ghost k: nat)
      requires Distinct(rs) && Shaped(rs, side, Some(px)) && k == Best(rs, side) < |rs| && Tracked(rs, gone, k)
      requires AtBest(side, px)
      requires maker in live && maker.Rec() == WithFill(rs[k], q) && maker.id !in gone
      modifies this`bids, this`asks, this`orders, this`live, this`done
      ensures Shaped(RestingAfter(rs, k, maker.Rec()), side, Some(px))
      ensures Tracked(RestingAfter(rs, k, maker.Rec()), GoneAfter(gone, maker.Rec()), -1)
      ensures SideLevels(side).Keys == old(SideLevels(side).Keys)
      ensures live <= old(live) && live + done == old(live + done)
    {
      hide Tracked, Shaped, AtBest, Distinct, Best;
      if maker.IsDone() {
        Pop(maker, side, px, q, rs, gone, k);
      } else {
        Shrink(maker, side, px, q, rs, gone, k);
      }
    }

    /** A trade and its three callbacks; no other order is touched. */
    method TradeWith(maker: Order, incoming: Order, q: Quantity,
                     ghost rs: seq<OrderRec>, ghost gone: map<OrderId, OrderRec>, ghost k: nat) returns (t: Trade)
      requires view.symbol == symbol && view.nextTradeId == nextTradeId
      requires Tracked(rs, gone, -1) && k < |rs| && maker == orders[rs[k].id] && maker.id !in gone
      requires Distinct(rs)
      requires incoming.id !in orders && incoming.id !in gone
      modifies this`nextTradeId, this`log, maker`filledQty, maker`status, incoming`filledQty, incoming`status
      ensures t == FlatBook.MakeTrade(view, old(incoming.Rec()), rs[k], q)
      ensures nextTradeId == old(nextTradeId) + 1
      ensures maker.Rec() == WithFill(rs[k], q) && incoming.Rec() == WithFill(old(incoming.Rec()), q)
      ensures log == old(log) + [TradeEvent(t), OrderEvent(maker.Rec()), OrderEvent(incoming.Rec())]
      ensures Tracked(rs, gone, k)
    {
      if incoming.side.Buy? {
        t := MakeTrade(incoming, maker, maker.price, q);
      } else {
        t := MakeTrade(maker, incoming, maker.price, q);
      }
      log := log + [TradeEvent(t)];
      NotifyOrder(maker);
      NotifyOrder(incoming);
    }

    /** What is known of the front order of the best level before it trades. */
    lemma FrontFacts(incoming: Order, px: Price, side: Side, k: nat)
      requires side == incoming.side.Opposite() && k == Best(view.resting, side)
      requires Agrees(side, Some(px)) && AtBest(side, px) && Taking(view, incoming.Rec())
      requires Accepts(incoming.Rec(), px) && incoming.Remaining() > 0
      ensures CanFill(view, incoming.Rec())
      ensures k < |view.resting| && view.resting[k].id in orders && view.resting[k].id !in view.gone
                && Distinct(view.resting)
      ensures var maker := SideLevels(side)[px].orders[0];
              maker == orders[view.resting[k].id] && maker in live && maker.Rec() == view.resting[k]
      ensures incoming.id !in orders && incoming.id !in view.gone
    {
      hide LevelsAgree, WellFormed, IndexAgrees;
      FrontIsBest(view, SideLevels(side), side, orders, px, k);
      TakerNotIndexed(view, incoming.Rec(), orders);
    }

    /** One turn of the inner loop: trade against the front of the best level. */
    method FillFront(incoming: Order, px: Price) returns (t: Trade)
      requires Agrees(incoming.side.Opposite(), Some(px)) && AtBest(incoming.side.Opposite(), px)
      requires Taking(view, incoming.Rec()) && Accepts(incoming.Rec(), px) && incoming.Remaining() > 0
      modifies this, live, incoming
      ensures old(CanFill(view, incoming.Rec()))
      ensures Outcome(view, incoming.Rec(), [t]) == old(FillBest(view, incoming.Rec()))
      ensures Agrees(incoming.side.Opposite(), Some(px))
      ensures SideLevels(incoming.side.Opposite()).Keys == old(SideLevels(incoming.side.Opposite()).Keys)
      ensures live <= old(live) && live + done == old(live + done)
    {
      hide WellFormed, Distinct, Best, Tracked, Shaped, CanFill, Taking, RestingAfter, GoneAfter;
      var side := incoming.side.Opposite();
      ghost var rs, gone, k := view.resting, view.gone, Best(view.resting, side);
      FrontFacts(incoming, px, side, k);
      FillKeepsWellFormed(view, incoming.Rec());

      var maker := SideLevels(side)[px].orders[0];
      var q := Min(incoming.Remaining(), maker.Remaining());
      hide AtBest;
      t := TradeWith(maker, incoming, q, rs, gone, k);
      view := FillBest(view, old(incoming.Rec())).book;
      Settle(maker, side, px, q, rs, gone, k);
    }

    /** The inner loop: trade against one level until it is empty or the incoming order is filled. */
    method DrainLevel(incoming: Order, px: Price) returns (trades: seq<Trade>)
      requires Agrees(incoming.side.Opposite(), Some(px)) && Taking(view, incoming.Rec()) && Accepts(incoming.Rec(), px)
      requires BestKey(incoming.side.Opposite(), px)
      modifies this, live, incoming
      ensures Agrees(incoming.side.Opposite(), Some(px)) && Taking(view, incoming.Rec())
      ensures incoming.price == old(incoming.price)
      ensures SideLevels(incoming.side.Opposite()).Keys == old(SideLevels(incoming.side.Opposite()).Keys)
      ensures incoming.Remaining() == 0 || SideLevels(incoming.side.Opposite())[px].orders == []
      ensures Sweep(old(view), old(incoming.Rec())) == Continued(view, incoming.Rec(), trades)
      ensures live <= old(live) && live + done == old(live + done)
    {
      hide WellFormed, Tracked, Shaped, Sweep, FillBest, CanFill;
      var side := incoming.side.Opposite();
      ghost var goal := Sweep(view, incoming.Rec());
      trades := [];
      while SideLevels(side)[px].orders != [] && incoming.Remaining() > 0
        invariant Agrees(side, Some(px)) && BestKey(side, px) && Taking(view, incoming.Rec())
        invariant incoming.price == old(incoming.price)
        invariant SideLevels(side).Keys == old(SideLevels(side).Keys)
        invariant goal == Continued(view, incoming.Rec(), trades)
        invariant live <= old(live) && live + done == old(live + done)
        decreases |view.resting|, incoming.Remaining()
      {
        ghost var b, o := view, incoming.Rec();
        var t := FillFront(incoming, px);
        FillKeepsWellFormed(b, o);
        FillContinues(b, o);
        ContinuedJoins(goal, b, o, trades, view, incoming.Rec(), [t]);
        trades := trades + [t];
      }
    }

    // -------------------------------------------------------------- the sweeps

    lemma HoleOpens(side: Side, px: Price)
      requires Agrees(side, None)
      ensures Agrees(side, Some(px))
    {
    }

    lemma KeyOfBest(side: Side, px: Price)
      requires BestKey(side, px)
      ensures px in SideLevels(side)
    {
    }

    /** At its best key a side either refuses the incoming order or offers it a fill. */
    lemma NothingAcceptable(incoming: Order, side: Side, px: Price)
      requires side == incoming.side.Opposite() && Agrees(side, None) && BestKey(side, px)
      requires !Accepts(incoming.Rec(), px)
      ensures !CanFill(view, incoming.Rec())
    {
    }

    lemma NothingLeft(incoming: Order, side: Side)
      requires side == incoming.side.Opposite() && Agrees(side, None) && SideLevels(side).Keys == {}
      ensures !CanFill(view, incoming.Rec())
    {
    }

    /** With the level at the hole kept or erased, all parts of the book agree again. */
    lemma LevelCloses(side: Side, px: Price)
      requires Agrees(side, Some(px)) && px in SideLevels(side)
      ensures var levels := SideLevels(side);
              LevelsAgree(if levels[px].orders == [] then levels - {px} else levels, side, view.resting, orders, None)
      ensures LevelsAgree(SideLevels(side.Opposite()), side.Opposite(), view.resting, orders, None)
      ensures WellFormed(view) && IndexAgrees(orders, view.resting) && Tracked(view.resting, view.gone, -1)
      ensures view.symbol == symbol && view.nextTradeId == nextTradeId && view.log == log
    {
      HoleCloses(SideLevels(side), side, view.resting, orders, px);
    }

    /** Erase the level if it is empty; either way no empty level remains. */
    method CloseLevel(side: Side, px: Price) returns (erased: bool)
      requires Agrees(side, Some(px)) && px in SideLevels(side)
      modifies this`bids, this`asks
      ensures Agrees(side, None)
      ensures erased == (old(SideLevels(side))[px].orders == [])
      ensures SideLevels(side).Keys == old(SideLevels(side).Keys) - (if erased then {px} else {})
    {
      hide Valid, Agrees, LevelsAgree, IndexAgrees, WellFormed, Tracked;
      LevelCloses(side, px);
      var levels := SideLevels(side);
      erased := levels[px].orders == [];
      if erased {
        SetLevels(side, levels - {px});
      }
      Parts();
      ValidIsAgrees(side);
    }

    /** Trade against the best level, then erase it if that emptied it. */
    method SweepLevel(incoming: Order, px: Price) returns (trades: seq<Trade>, erased: bool)
      requires Agrees(incoming.side.Opposite(), None) && BestKey(incoming.side.Opposite(), px)
      requires Taking(view, incoming.Rec()) && Accepts(incoming.Rec(), px)
      modifies this, live, incoming
      ensures Agrees(incoming.side.Opposite(), None) && Taking(view, incoming.Rec())
      ensures incoming.price == old(incoming.price)
      ensures SideLevels(incoming.side.Opposite()).Keys
                == old(SideLevels(incoming.side.Opposite()).Keys) - (if erased then {px} else {})
      ensures erased || incoming.Remaining() == 0
      ensures Sweep(old(view), old(incoming.Rec())) == Continued(view, incoming.Rec(), trades)
      ensures live <= old(live) && live + done == old(live + done)
    {
      hide Agrees, Taking, Accepts, BestKey, Sweep, Continued, SideLevels;
      var side := incoming.side.Opposite();
      HoleOpens(side, px);
      KeyOfBest(side, px);
      trades := DrainLevel(incoming, px);
      erased := CloseLevel(side, px);
    }

    /** A buy walks the asks from the lowest price with a forward iterator. */
    method SweepAsks(incoming: Order) returns (trades: seq<Trade>)
      requires incoming.side.Buy? && Agrees(Sell, None) && Taking(view, incoming.Rec())
      modifies this, live, incoming
      ensures Agrees(Sell, None)
      ensures Outcome(view, incoming.Rec(), trades) == Sweep(old(view), old(incoming.Rec()))
      ensures live <= old(live) && live + done == old(live + done)
    {
      hide Agrees, Taking, Sweep, Continued;
      trades := [];
      ghost var goal := Sweep(view, incoming.Rec());
      assert goal == Continued(view, incoming.Rec(), trades) by { SweepStarts(view, incoming.Rec()); }
      var it := NextKey(asks.Keys, Sell, None);
      while it.Some? && incoming.Remaining() > 0
        invariant Agrees(Sell, None) && Taking(view, incoming.Rec())
        invariant incoming.Remaining() > 0 ==> if it.Some? then BestKey(Sell, it.value) else asks.Keys == {}
        invariant goal == Continued(view, incoming.Rec(), trades)
        invariant live <= old(live) && live + done == old(live + done)
        decreases asks.Keys, incoming.Remaining()
      {
        var px := it.value;
        if (incoming.typ.Limit? || incoming.typ.Ioc?) && px > incoming.price {
          NothingAcceptable(incoming, Sell, px);
          break;
        }
        ghost var b, o := view, incoming.Rec();
        it := NextKey(asks.Keys, Sell, Some(px));
        var ts, erased := SweepLevel(incoming, px);
        ContinuedJoins(goal, b, o, trades, view, incoming.Rec(), ts);
        trades := trades + ts;
      }
      if incoming.Remaining() > 0 && it.None? {
        NothingLeft(incoming, Sell);
      }
      SweepEnds(view, incoming.Rec(), trades);
    }

    /** A sell takes the highest bid, the last key, afresh for every level. */
    method SweepBids(incoming: Order) returns (trades: seq<Trade>)
      requires incoming.side.Sell? && Agrees(Buy, None) && Taking(view, incoming.Rec())
      modifies this, live, incoming
      ensures Agrees(Buy, None)
      ensures Outcome(view, incoming.Rec(), trades) == Sweep(old(view), old(incoming.Rec()))
      ensures live <= old(live) && live + done == old(live + done)
    {
      hide Agrees, Taking, Sweep, Continued;
      trades := [];
      ghost var goal := Sweep(view, incoming.Rec());
      SweepStarts(view, incoming.Rec());
      while bids.Keys != {} && incoming.Remaining() > 0
        invariant Agrees(Buy, None) && Taking(view, incoming.Rec())
        invariant goal == Continued(view, incoming.Rec(), trades)
        invariant live <= old(live) && live + done == old(live + done)
        decreases bids.Keys, incoming.Remaining()
      {
        var it := NextKey(bids.Keys, Buy, None);
        var px := it.value;
        if (incoming.typ.Limit? || incoming.typ.Ioc?) && px < incoming.price {
          NothingAcceptable(incoming, Buy, px);
          break;
        }
        ghost var b, o := view, incoming.Rec();
        var ts, erased := SweepLevel(incoming, px);
        ContinuedJoins(goal, b, o, trades, view, incoming.Rec(), ts);
        trades := trades + ts;
        if !erased {
          break;
        }
      }
      if incoming.Remaining() > 0 && bids.Keys == {} {
        NothingLeft(incoming, Buy);
      }
      SweepEnds(view, incoming.Rec(), trades);
    }

    lemma PricesHaveLevels(side: Side)
      requires Agrees(side, None)
      ensures forall i :: 0 <= i < |view.resting| ==> view.resting[i].Remaining() >= 0
      ensures forall i :: 0 <= i < |view.resting| && view.resting[i].side == side ==>
                view.resting[i].price in SideLevels(side)
      ensures forall p :: p in SideLevels(side) ==>
                SideLevels(side)[p].totalQty == SumRemaining(QueueAt(view.resting, side, p))
    {
    }

    /** The fill-or-kill scan adds up cached level totals, stopping at the limit or once there is enough. */
    static method EnoughAvailable(levels: Levels, o: OrderRec, ghost rs: seq<OrderRec>) returns (enough: bool)
      requires o.typ.Fok?
      requires forall i :: 0 <= i < |rs| ==> rs[i].Remaining() >= 0
      requires forall i :: 0 <= i < |rs| && rs[i].side == o.side.Opposite() ==> rs[i].price in levels
      requires forall p :: p in levels ==> levels[p].totalQty == SumRemaining(QueueAt(rs, o.side.Opposite(), p))
      ensures enough == (EligibleQty(rs, o.side, Some(o.price)) >= o.qty)
    {
      hide QtyAhead, EligibleQty, SumRemaining, QueueAt;
      var side := o.side.Opposite();
      var available := 0;
      var it := NextKey(levels.Keys, side, None);
      ghost var todo := levels.Keys;
      NothingAhead(rs, side, it);
      while it.Some?
        invariant it.Some? ==> it.value in levels
        invariant available == QtyAhead(rs, side, it)
        invariant forall p :: p in levels && Ahead(side, p, it) ==> WithinLimit(o.side, Some(o.price), p)
        invariant forall p :: p in levels && !Ahead(side, p, it) ==> p in todo
        decreases todo
      {
        var px := it.value;
        if o.typ != Market && !WithinLimit(o.side, Some(o.price), px) {
          break;
        }
        var next := NextKey(levels.Keys, side, Some(px));
        AheadOfNext(rs, side, px, next);
        available := available + levels[px].totalQty;
        todo := todo - {px};
        it := next;
        if available >= o.qty {
          break;
        }
      }
      AheadIsEligible(rs, o.side, Some(o.price), it);
      enough := available >= o.qty;
    }

    // -------------------------------------------------------------- operations

    /** An unused id means an object the book does not hold. */
    lemma NewcomerIsOutside(order: Order)
      requires Valid() && order.id !in view.gone
      requires forall i :: 0 <= i < |view.resting| ==> view.resting[i].id != order.id
      ensures order !in live && order !in done && order.id !in orders
    {
    }

    lemma ValidIsAgrees(side: Side)
      ensures Valid() <==> Agrees(side, None)
    {
    }

    lemma Parts()
      ensures Valid() <==>
                && WellFormed(view) && IndexAgrees(orders, view.resting) && Tracked(view.resting, view.gone, -1)
                && LevelsAgree(SideLevels(Buy), Buy, view.resting, orders, None)
                && LevelsAgree(SideLevels(Sell), Sell, view.resting, orders, None)
                && view.symbol == symbol && view.nextTradeId == nextTradeId && view.log == log
    {
    }

    /** The order callback for an order outside the book. */
    method Announce(order: Order)
      requires Valid()
      modifies this`log, this`view
      ensures Valid() && view == Notify(old(view), order.Rec())
    {
      hide WellFormed, Shaped, Tracked;
      NotifyKeepsWellFormed(view, order.Rec());
      NotifyOrder(order);
      view := Notify(view, order.Rec());
    }

    /** Bookkeeping only: the order is done and will not be heard of again. */
    ghost method Leave(order: Order)
      requires Valid() && Finished(order.Rec()) && order.id !in view.gone && order !in live
      requires forall i :: 0 <= i < |view.resting| ==> view.resting[i].id != order.id
      modifies this`done, this`view
      ensures Valid() && done == old(done) + {order}
      ensures view == old(view).(gone := old(view.gone)[order.id := order.Rec()])
    {
      hide LevelsAgree, IndexAgrees, WellFormed, Finished, Tracked;
      RetireKeepsWellFormed(Outcome(view, order.Rec(), []));
      MarkDone(order, view.resting, view.gone);
      view := view.(gone := view.gone[order.id := order.Rec()]);
    }

    /** Enter an order into the index, behind all others. */
    method Reindex(order: Order, ghost rs: seq<OrderRec>, ghost gone: map<OrderId, OrderRec>)
      requires Tracked(rs, gone, -1) && order.id !in orders
      modifies this`orders, this`live
      ensures Tracked(rs + [order.Rec()], gone, -1)
      ensures orders == old(orders)[order.id := order] && live == old(live) + {order}
    {
      orders := orders[order.id := order];
      live := live + {order};
    }

    method AddToBook(order: Order)
      requires Valid() && order.id !in orders
      requires Taking(view, order.Rec()) && order.typ.Limit? && !order.IsDone()
      modifies this`bids, this`asks, this`orders, this`live, this`view
      ensures Valid() && view == old(view).(resting := old(view.resting) + [order.Rec()])
      ensures live == old(live) + {order}
    {
      hide Valid, LevelsAgree, IndexAgrees, WellFormed, Taking, Tracked, PushedLevel;
      Parts();
      RestKeepsWellFormed(Outcome(view, order.Rec(), []));
      var levels := SideLevels(order.side);
      LevelsAfterAppend(levels, view.resting, orders, order.Rec(), order);
      OtherSideAfterAppend(SideLevels(order.side.Opposite()), order.side.Opposite(), view.resting, orders,
        order.Rec(), order);
      IndexAfterAppend(view.resting, orders, order.Rec(), order);
      SetLevels(order.side, levels[order.price := PushedLevel(levels, order.Rec(), order)]);
      Reindex(order, view.resting, view.gone);
      view := view.(resting := view.resting + [order.Rec()]);
      Parts();
    }

    method TryMatch(incoming: Order, fokCheck: bool) returns (trades: seq<Trade>)
      requires Valid() && Taking(view, incoming.Rec()) && fokCheck == incoming.typ.Fok?
      modifies this, live, incoming
      ensures Valid() && live <= old(live) && live + done == old(live + done)
      ensures var kill := fokCheck
                && old(EligibleQty(view.resting, incoming.side, Some(incoming.price)) < incoming.qty);
              Outcome(view, incoming.Rec(), trades) ==
                if kill
                then var x := old(incoming.Rec()).(status := Expired); Outcome(Notify(old(view), x), x, [])
                else Sweep(old(view), old(incoming.Rec()))
    {
      hide Valid, Agrees, Sweep, EligibleQty;
      ValidIsAgrees(incoming.side.Opposite());
      if fokCheck {
        PricesHaveLevels(incoming.side.Opposite());
        var enough := EnoughAvailable(SideLevels(incoming.side.Opposite()), incoming.Rec(), view.resting);
        if !enough {
          NewcomerIsOutside(incoming);
          incoming.status := Expired;
          Announce(incoming);
          return [];
        }
      }
      if incoming.side.Buy? {
        trades := SweepAsks(incoming);
      } else {
        trades := SweepBids(incoming);
      }
      ValidIsAgrees(incoming.side.Opposite());
    }

    /** What is left of a market or immediate-or-cancel order ends here, and is announced. */
    method EndRemainder(order: Order, status: OrderStatus)
      requires Valid() && Taking(view, order.Rec()) && (status.Cancelled? || status.Expired?)
      modifies this`log, this`view, order`status
      ensures Valid()
      ensures Outcome(view, order.Rec(), []) == FlatBook.EndRemainder(Outcome(old(view), old(order.Rec()), []), status)
      ensures Finished(order.Rec()) && view.resting == old(view.resting) && view.gone == old(view.gone)
    {
      NewcomerIsOutside(order);
      hide Valid;
      if order.Remaining() > 0 {
        order.status := status;
        Announce(order);
      }
    }

    method AddOrder(order: Order) returns (trades: seq<Trade>)
      requires Valid() && Incoming(view, order.Rec())
      modifies Repr(), order
      ensures Valid()
      ensures Outcome(view, order.Rec(), trades) == Add(old(view), old(order.Rec()))
      ensures Repr() == old(Repr()) + {order}
    {
      hide Valid, Incoming, Add;
      trades := ByType(order);
    }

    /** A limit order takes what it can, and rests unless that filled it. */
    method TakeOrRest(order: Order) returns (trades: seq<Trade>)
      requires Valid() && Taking(view, order.Rec()) && order.typ.Limit?
      modifies this, live, order
      ensures Valid() && live + done == old(live + done) + {order}
      ensures var r := Sweep(old(view), old(order.Rec()));
              Outcome(view, order.Rec(), trades) == if r.order.IsDone() then Retire(r) else Rest(r)
    {
      hide Valid, Sweep, EligibleQty, WellFormed;
      TakerIsWellFormed(order);
      SweepKeepsWellFormed(view, order.Rec());
      trades := TryMatch(order, false);
      NewcomerIsOutside(order);
      if !order.IsDone() {
        AddToBook(order);
      } else {
        Leave(order);
      }
    }

    /** A market or immediate-or-cancel order takes what it can, and ends. */
    method TakeAndEnd(order: Order, status: OrderStatus) returns (trades: seq<Trade>)
      requires Valid() && Taking(view, order.Rec()) && !order.typ.Fok? && (status.Cancelled? || status.Expired?)
      modifies this, live, order
      ensures Valid() && live + done == old(live + done) + {order}
      ensures Outcome(view, order.Rec(), trades)
                == Retire(FlatBook.EndRemainder(Sweep(old(view), old(order.Rec())), status))
    {
      hide Valid, Sweep, EligibleQty, WellFormed;
      TakerIsWellFormed(order);
      SweepKeepsWellFormed(view, order.Rec());
      trades := TryMatch(order, false);
      EndRemainder(order, status);
      NewcomerIsOutside(order);
      Leave(order);
    }

    /** A fill-or-kill order takes all it wants or expires. */
    method TakeAllOrNothing(order: Order) returns (trades: seq<Trade>)
      requires Valid() && Taking(view, order.Rec()) && order.typ.Fok? && order.filledQty == 0
      modifies this, live, order
      ensures Valid() && live + done == old(live + done) + {order}
      ensures var b, o := old(view), old(order.Rec());
              Outcome(view, order.Rec(), trades) ==
                if EligibleQty(b.resting, o.side, Some(o.price)) < o.qty
                then var x := o.(status := Expired); Retire(Outcome(Notify(b, x), x, []))
                else Retire(Sweep(b, o))
    {
      hide Valid, Sweep, EligibleQty, WellFormed;
      TakerIsWellFormed(order);
      SweepKeepsWellFormed(view, order.Rec());
      if EligibleQty(view.resting, order.side, Some(order.price)) >= order.qty {
        SweepTakesAllItCan(view, order.Rec(), Some(order.price));
      }
      trades := TryMatch(order, true);
      NewcomerIsOutside(order);
      Leave(order);
    }

    lemma TakerIsWellFormed(order: Order)
      requires Valid()
      ensures WellFormed(view)
    {
    }

    /** The switch over order types, after the order was announced as new. */
    method ByType(order: Order) returns (trades: seq<Trade>)
      requires Valid() && Incoming(view, order.Rec())
      modifies this, live, order
      ensures Valid()
      ensures Outcome(view, order.Rec(), trades) == Add(old(view), old(order.Rec()))
      ensures live + done == old(live + done) + {order}
    {
      hide Valid, Sweep, EligibleQty, WellFormed, Taking, Retire, Rest, FlatBook.EndRemainder;
      NewcomerIsOutside(order);
      order.status := New;
      Announce(order);
      AnnouncedTakes(order);
      match order.typ {
        case Limit => trades := TakeOrRest(order);
        case Market => trades := TakeAndEnd(order, Cancelled);
        case Ioc => trades := TakeAndEnd(order, Expired);
        case Fok => trades := TakeAllOrNothing(order);
      }
    }

    lemma AnnouncedTakes(order: Order)
      requires Valid() && Incoming(view, order.Rec()) && order.status == New
      ensures WellFormed(view) && Taking(view, order.Rec())
    {
    }

    /** list::remove_if by id: what is kept, and the remainder of what was dropped. */
    static method RemoveIf(queue: seq<Order>, id: OrderId, ghost j: nat) returns (kept: seq<Order>, removed: Quantity)
      requires j < |queue| && queue[j].id == id && forall i :: 0 <= i < |queue| && i != j ==> queue[i].id != id
      ensures kept == RemoveAt(queue, j) && removed == queue[j].Remaining()
    {
      kept, removed := [], 0;
      for i := 0 to |queue|
        invariant kept == if i <= j then queue[..i] else queue[..j] + queue[j + 1..i]
        invariant removed == if i <= j then 0 else queue[j].Remaining()
      {
        if queue[i].id == id {
          removed := queue[i].Remaining();
        } else {
          kept := kept + [queue[i]];
        }
      }
    }

    method RemoveFromBook(order: Order, ghost k: nat)
      requires Valid() && k < |view.resting| && order in live && order.Rec() == view.resting[k]
      modifies this`bids, this`asks, this`orders, this`live, this`view
      ensures Valid() && view == old(view).(resting := RemoveAt(old(view.resting), k))
      ensures live == old(live) - {order} && order.id !in orders
    {
      hide Valid, LevelsAgree, LevelAgrees, IndexAgrees, WellFormed, Distinct, Tracked, RemoveAt, WithLevel;
      ghost var rs := view.resting;
      Parts();
      RemovalKeepsWellFormed(view, k);
      WellFormedIsDistinct(view);
      HandFree(rs, view.gone, k);
      var levels := SideLevels(order.side);
      LevelOf(levels, rs, orders, None, k);
      var level := levels[order.price];
      ghost var j := PlaceInQueue(level, rs, orders, k);
      var kept, removed := RemoveIf(level.orders, order.id, j);
      level := PriceLevel(level.price, kept, level.totalQty - removed);
      OrderLeaves(levels, SideLevels(order.side.Opposite()), rs, orders, k, level);
      SetLevels(order.side, WithLevel(levels, level));
      Unindex(order, rs, view.gone, k);
      view := view.(resting := RemoveAt(rs, k));
      Parts();
    }

    lemma HandFree(rs: seq<OrderRec>, gone: map<OrderId, OrderRec>, k: nat)
      requires Tracked(rs, gone, -1)
      ensures Tracked(rs, gone, k)
    {
    }

    lemma HeldObject(id: OrderId)
      requires Valid()
      ensures id in orders <==> Find(view.resting, id) < |view.resting|
      ensures id in orders ==>
                var k := Find(view.resting, id);
                orders[id] in live && orders[id].Rec() == view.resting[k] && id !in view.gone
    {
    }

    method CancelOrder(id: OrderId) returns (ok: bool)
      requires Valid()
      modifies Repr()
      ensures Valid() && (view, ok) == Cancel(old(view), id)
      ensures Repr() == old(Repr())
    {
      hide Valid, RemoveAt, WellFormed;
      HeldObject(id);
      if id !in orders {
        return false;
      }
      var order := orders[id];
      ghost var k := Find(view.resting, id);
      KnownFacts(k);
      RemoveFromBook(order, k);
      order.status := Cancelled;
      Announce(order);
      Leave(order);
      return true;
    }

    method ModifyOrder(id: OrderId, price: Price, qty: Quantity) returns (ok: bool)
      requires Valid()
      modifies Repr()
      ensures Valid() && (view, ok) == Modify(old(view), id, price, qty)
      ensures Repr() == old(Repr())
    {
      hide Valid, RemoveAt, WellFormed;
      HeldObject(id);
      if id !in orders {
        return false;
      }
      var order := orders[id];
      if qty <= order.filledQty {
        return false;
      }
      ghost var k := Find(view.resting, id);
      KnownFacts(k);
      RemoveFromBook(order, k);
      order.price := price;
      order.qty := qty;
      AddToBook(order);
      return true;
    }

    lemma KnownFacts(k: nat)
      requires Valid() && k < |view.resting|
      ensures Live(view.resting[k]) && view.resting[k].id !in view.gone
      ensures forall i :: 0 <= i < |RemoveAt(view.resting, k)| ==> RemoveAt(view.resting, k)[i].id != view.resting[k].id
      ensures orders[view.resting[k].id] !in done
    {
      RemovalKeepsWellFormed(view, k);
    }

    // -------------------------------------------------------------- reading the book

    lemma EmptyViewMeansEmptyBook()
      requires Valid() && view.resting == []
      ensures orders == map[] && bids == map[] && asks == map[]
    {
      NoOrdersNoLevels(bids, Buy, orders);
      NoOrdersNoLevels(asks, Sell, orders);
      assert Ids([]) == {};
    }

    method FindOrder(id: OrderId) returns (r: Option<Order>)
      requires Valid()
      ensures r.Some? <==> Find(view.resting, id) < |view.resting|
      ensures r.Some? ==> r.value in live && r.value.Rec() == view.resting[Find(view.resting, id)]
    {
      HeldObject(id);
      r := if id in orders then Some(orders[id]) else None;
    }

    method BestPrice(side: Side) returns (px: Price)
      requires Valid()
      ensures var k := Best(view.resting, side); px == if k < |view.resting| then view.resting[k].price else 0
    {
      var levels := SideLevels(side);
      ValidIsAgrees(side);
      hide LevelsAgree, WellFormed, IndexAgrees, Tracked;
      var it := NextKey(levels.Keys, side, None);
      if it.None? {
        EmptySideHasNoBest(levels, side, view.resting, orders);
        return 0;
      }
      BestKeyIsBestPrice(levels, side, view.resting, orders, it.value);
      return it.value;
    }

    /** Aggregates of one side, best level first, at most `depth` of them. */
    static method TopLevels(levels: Levels, side: Side, depth: int, ghost rs: seq<OrderRec>) returns (top: seq<L2Level>)
      requires forall p :: p in levels ==> IsAggregate(L2Level(p, levels[p].totalQty, |levels[p].orders|), rs, side)
      requires forall k :: 0 <= k < |rs| && rs[k].side == side ==> rs[k].price in levels
      ensures IsTop(top, rs, side, depth)
    {
      hide IsAggregate, Prices;
      top := [];
      var it := NextKey(levels.Keys, side, None);
      ghost var todo := levels.Keys;
      while it.Some? && |top| < depth
        invariant it.Some? ==> it.value in todo
        invariant forall p :: p in levels && !Ahead(side, p, it) ==> p in todo
        invariant |top| <= if depth > 0 then depth else 0
        invariant forall i :: 0 <= i < |top| ==>
                    top[i].price in levels && Ahead(side, top[i].price, it) && IsAggregate(top[i], rs, side)
        invariant forall i, j :: 0 <= i < j < |top| ==> Better(side, top[i].price, top[j].price)
        invariant forall p :: p in levels && Ahead(side, p, it) ==> p in Prices(top)
        decreases todo
      {
        var px := it.value;
        var next := NextKey(levels.Keys, side, Some(px));
        var l := L2Level(px, levels[px].totalQty, |levels[px].orders|);
        PricesGrow(top, l);
        top := top + [l];
        todo := todo - {px};
        it := next;
      }
      PricesAreShown(top);
    }

    method Snapshot(depth: int) returns (bidLevels: seq<L2Level>, askLevels: seq<L2Level>)
      requires Valid()
      ensures IsTop(bidLevels, view.resting, Buy, depth) && IsTop(askLevels, view.resting, Sell, depth)
    {
      hide IsTop, IsAggregate;
      LevelsAreAggregates(bids, Buy, view.resting, orders);
      LevelsAreAggregates(asks, Sell, view.resting, orders);
      bidLevels := TopLevels(bids, Buy, depth, view.resting);
      askLevels := TopLevels(asks, Sell, depth, view.resting);
    }
  }
}
