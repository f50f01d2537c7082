/** Every operation of the reference book keeps it well formed; fill-or-kill needs the most work. */
module BookInvariants {
  import opened Types
  import opened FlatBook

  lemma FindIs(rs: seq<OrderRec>, k: nat)
    requires k < |rs| && forall i :: 0 <= i < k ==> rs[i].id != rs[k].id
    ensures Find(rs, rs[k].id) == k
  {
  }

  // ---------------------------------------------------------------- eligible liquidity

  lemma {:induction false} EligibleConcat(a: seq<OrderRec>, c: seq<OrderRec>, side: Side, limit: Option<Price>)
    ensures EligibleQty(a + c, side, limit) == EligibleQty(a, side, limit) + EligibleQty(c, side, limit)
  {
    if a == [] {
      assert a + c == c;
    } else {
      assert (a + c)[1..] == a[1..] + c;
      EligibleConcat(a[1..], c, side, limit);
    }
  }

  lemma EligibleSplit(rs: seq<OrderRec>, k: nat, side: Side, limit: Option<Price>)
    requires k < |rs|
    ensures EligibleQty(rs, side, limit)
         == EligibleQty(rs[..k], side, limit) + EligibleQty([rs[k]], side, limit)
           + EligibleQty(rs[k + 1..], side, limit)
  {
    assert rs == rs[..k] + ([rs[k]] + rs[k + 1..]);
    EligibleConcat(rs[..k], [rs[k]] + rs[k + 1..], side, limit);
    EligibleConcat([rs[k]], rs[k + 1..], side, limit);
  }

  lemma {:induction false} NothingEligible(rs: seq<OrderRec>, side: Side, limit: Option<Price>)
    requires forall i :: 0 <= i < |rs| && rs[i].side == side.Opposite() ==> !WithinLimit(side, limit, rs[i].price)
    ensures EligibleQty(rs, side, limit) == 0
  {
    if rs != [] {
      NothingEligible(rs[1..], side, limit);
    }
  }

  lemma {:induction false} EligibleNotNegative(rs: seq<OrderRec>, side: Side, limit: Option<Price>)
    requires forall i :: 0 <= i < |rs| ==> rs[i].Remaining() > 0
    ensures EligibleQty(rs, side, limit) >= 0
  {
    if rs != [] {
      EligibleNotNegative(rs[1..], side, limit);
    }
  }

  /** Something is eligible exactly when the order that trades next is within the limit. */
  lemma EligibleIffBest(b: Book, side: Side, limit: Option<Price>)
    requires WellFormed(b)
    ensures EligibleQty(b.resting, side, limit) >= 0
    ensures var k := Best(b.resting, side.Opposite());
            EligibleQty(b.resting, side, limit) > 0 <==> k < |b.resting| && WithinLimit(side, limit, b.resting[k].price)
  {
    var rs, k := b.resting, Best(b.resting, side.Opposite());
    forall i | 0 <= i < |rs|
      ensures rs[i].Remaining() > 0
    {
      assert Live(rs[i]);
    }
    EligibleNotNegative(rs, side, limit);
    if k == |rs| || !WithinLimit(side, limit, rs[k].price) {
      NothingEligible(rs, side, limit);
    } else {
      EligibleSplit(rs, k, side, limit);
      EligibleNotNegative(rs[..k], side, limit);
      EligibleNotNegative(rs[k + 1..], side, limit);
    }
  }

  /** A fill within a limit takes exactly its quantity from what that limit can reach. */
  lemma FillTakesEligible(b: Book, taker: OrderRec, limit: Option<Price>)
    requires WellFormed(b) && Taking(b, taker) && CanFill(b, taker)
    ensures var f := FillBest(b, taker);
            var t := f.trades[0];
            EligibleQty(f.book.resting, taker.side, limit)
            == EligibleQty(b.resting, taker.side, limit)
              - (if WithinLimit(taker.side, limit, t.price) then t.qty else 0)
  {
    var side := taker.side;
    var rs := b.resting;
    var k := Best(rs, side.Opposite());
    var f := FillBest(b, taker);
    assert Live(rs[k]);
    EligibleSplit(rs, k, side, limit);
    if |f.book.resting| < |rs| {
      EligibleConcat(rs[..k], rs[k + 1..], side, limit);
    } else {
      var rs' := f.book.resting;
      EligibleSplit(rs', k, side, limit);
      assert rs'[..k] == rs[..k] && rs'[k + 1..] == rs[k + 1..];
    }
  }

  /** A sweep trades as much as it possibly can: all it wants or all it can reach. The limit is the
      one the sweep itself checks; or, for a sweep that checks none, any limit within which there is
      enough, and then the sweep never leaves that limit. */
  lemma {:induction false} SweepTakesAllItCan(b: Book, taker: OrderRec, limit: Option<Price>)
    requires WellFormed(b) && Taking(b, taker)
    requires limit == SweepLimit(taker)
               || (SweepLimit(taker).None? && EligibleQty(b.resting, taker.side, limit) >= taker.Remaining())
    ensures var r := Sweep(b, taker);
            && Volume(r.trades) == Min(taker.Remaining(), EligibleQty(b.resting, taker.side, limit))
            && r.order.filled == taker.filled + Volume(r.trades)
            && r.order.qty == taker.qty
            && forall i :: 0 <= i < |r.trades| ==> WithinLimit(taker.side, limit, r.trades[i].price)
    decreases |b.resting|, taker.Remaining()
  {
    hide EligibleQty, WellFormed, Best;
    EligibleIffBest(b, taker.side, limit);
    if CanFill(b, taker) {
      var f := FillBest(b, taker);
      FillKeepsWellFormed(b, taker);
      FillTakesEligible(b, taker, limit);
      SweepTakesAllItCan(f.book, f.order, limit);
      assert (f.trades + Sweep(f.book, f.order).trades)[1..] == Sweep(f.book, f.order).trades;
    }
  }

  // ---------------------------------------------------------------- well-formedness

  lemma FillKeepsWellFormed(b: Book, taker: OrderRec)
    requires WellFormed(b) && Taking(b, taker) && CanFill(b, taker)
    ensures var f := FillBest(b, taker); WellFormed(f.book) && Taking(f.book, f.order)
  {
    var k := Best(b.resting, taker.side.Opposite());
    var maker := b.resting[k];
    assert Live(maker);
    var f := FillBest(b, taker);
    forall i | 0 <= i < |f.book.resting|
      ensures Live(f.book.resting[i]) && f.book.resting[i].id !in f.book.gone && f.book.resting[i].id != taker.id
    {
      if |f.book.resting| < |b.resting| {
        assert f.book.resting[i] == b.resting[if i < k then i else i + 1];
      }
    }
  }

  lemma FillShrinks(b: Book, taker: OrderRec)
    requires CanFill(b, taker)
    ensures var f := FillBest(b, taker);
            |f.book.resting| < |b.resting|
              || (|f.book.resting| == |b.resting| && 0 <= f.order.Remaining() < taker.Remaining())
  {
  }

  /** One fill is one step of the sweep, and either the maker leaves or the taker is filled. */
  lemma FillContinues(b: Book, taker: OrderRec)
    requires Taking(b, taker) && CanFill(b, taker)
    ensures var f := FillBest(b, taker);
            && Sweep(b, taker) == Continued(f.book, f.order, f.trades)
            && |f.book.resting| <= |b.resting|
            && (f.order.Remaining() == 0 || |f.book.resting| < |b.resting|)
            && f.order == taker.(filled := f.order.filled, status := f.order.status)
  {
  }

  lemma ContinuedJoins(goal: Outcome, b: Book, taker: OrderRec, ts: seq<Trade>, b': Book, taker': OrderRec,
                       us: seq<Trade>)
    requires goal == Continued(b, taker, ts) && Sweep(b, taker) == Continued(b', taker', us)
    ensures goal == Continued(b', taker', ts + us)
  {
  }

  lemma SweepStarts(b: Book, taker: OrderRec)
    ensures Sweep(b, taker) == Continued(b, taker, [])
  {
  }

  lemma SweepEnds(b: Book, taker: OrderRec, ts: seq<Trade>)
    requires !CanFill(b, taker)
    ensures Continued(b, taker, ts) == Outcome(b, taker, ts)
  {
  }

  lemma {:induction false} SweepKeepsWellFormed(b: Book, taker: OrderRec)
    requires WellFormed(b) && Taking(b, taker)
    ensures var r := Sweep(b, taker); WellFormed(r.book) && Taking(r.book, r.order)
    ensures var r := Sweep(b, taker); r.order == taker.(filled := r.order.filled, status := r.order.status)
    ensures !CanFill(Sweep(b, taker).book, Sweep(b, taker).order)
    decreases |b.resting|, taker.Remaining()
  {
    if CanFill(b, taker) {
      FillKeepsWellFormed(b, taker);
      var f := FillBest(b, taker);
      SweepKeepsWellFormed(f.book, f.order);
    }
  }

  lemma RetireKeepsWellFormed(r: Outcome)
    requires WellFormed(r.book) && Finished(r.order)
    requires forall i :: 0 <= i < |r.book.resting| ==> r.book.resting[i].id != r.order.id
    ensures WellFormed(Retire(r).book)
  {
  }

  lemma RestKeepsWellFormed(r: Outcome)
    requires WellFormed(r.book) && Taking(r.book, r.order) && r.order.typ.Limit? && !r.order.IsDone()
    ensures WellFormed(Rest(r).book)
  {
  }

  lemma NotifyKeepsWellFormed(b: Book, o: OrderRec)
    requires WellFormed(b)
    ensures WellFormed(Notify(b, o))
  {
  }

  lemma AddKeepsWellFormed(b: Book, order: OrderRec)
    requires WellFormed(b) && Incoming(b, order)
    ensures WellFormed(Add(b, order).book)
  {
    hide Sweep, EligibleQty;
    var o := order.(status := New);
    var b1 := Notify(b, o);
    SweepKeepsWellFormed(b1, o);
    var r := Sweep(b1, o);
    match o.typ
    case Limit =>
      if r.order.IsDone() { RetireKeepsWellFormed(r); } else { RestKeepsWellFormed(r); }
    case Market => RetireKeepsWellFormed(EndRemainder(r, Cancelled));
    case Ioc => RetireKeepsWellFormed(EndRemainder(r, Expired));
    case Fok =>
      if EligibleQty(b1.resting, o.side, Some(o.price)) < o.qty {
        var x := o.(status := Expired);
        RetireKeepsWellFormed(Outcome(Notify(b1, x), x, []));
      } else {
        SweepTakesAllItCan(b1, o, Some(o.price));
        RetireKeepsWellFormed(r);
      }
  }

  lemma RemovalKeepsWellFormed(b: Book, k: nat)
    requires WellFormed(b) && k < |b.resting|
    ensures WellFormed(b.(resting := RemoveAt(b.resting, k)))
    ensures Live(b.resting[k]) && b.resting[k].id !in b.gone
    ensures forall i :: 0 <= i < |b.resting| - 1 ==> RemoveAt(b.resting, k)[i].id != b.resting[k].id
  {
  }

  /** An added order's trades are its sweep's, unless fill-or-kill gave up before sweeping. */
  lemma AddTradesAreSweepTrades(b: Book, order: OrderRec)
    ensures var o := order.(status := New);
            && Notify(b, o).resting == b.resting
            && Add(b, order).trades ==
              if o.typ.Fok? && EligibleQty(b.resting, o.side, Some(o.price)) < o.qty then []
              else Sweep(Notify(b, o), o).trades
  {
  }

  lemma CancelKeepsWellFormed(b: Book, id: OrderId)
    requires WellFormed(b)
    ensures WellFormed(Cancel(b, id).0)
  {
    var k := Find(b.resting, id);
    var b' := Cancel(b, id).0;
    if k < |b.resting| {
      assert Live(b.resting[k]);
      forall i | 0 <= i < |b'.resting|
        ensures Live(b'.resting[i]) && b'.resting[i].id !in b'.gone
      {
        assert b'.resting[i] == b.resting[if i < k then i else i + 1];
      }
    }
  }

  lemma ModifyKeepsWellFormed(b: Book, id: OrderId, price: Price, qty: Quantity)
    requires WellFormed(b)
    ensures WellFormed(Modify(b, id, price, qty).0)
  {
  }

  lemma StepKeepsWellFormed(b: Book, op: Op)
    requires WellFormed(b) && LegalOp(b, op)
    ensures WellFormed(Step(b, op))
  {
    match op
    case AddOp(order) => AddKeepsWellFormed(b, order);
    case CancelOp(id) => CancelKeepsWellFormed(b, id);
    case ModifyOp(id, price, qty) => ModifyKeepsWellFormed(b, id, price, qty);
  }

  lemma {:induction false} RunKeepsWellFormed(b: Book, ops: seq<Op>)
    requires WellFormed(b) && LegalRun(b, ops)
    ensures WellFormed(Run(b, ops))
    decreases |ops|
  {
    if ops != [] {
      StepKeepsWellFormed(b, ops[0]);
      RunKeepsWellFormed(Step(b, ops[0]), ops[1..]);
    }
  }
}
