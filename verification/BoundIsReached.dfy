/**
 The position bound of the submit protocol cannot be improved. For all limits that let any order through
 at all, any number k of submitters in flight and either side, some run reaches max_position +
 (k - 1) * max_order_qty exactly; so the plain max_position holds for one submitter at a time only.
 */
module BoundIsReached {
  import opened Types
  import opened FlatBook
  import opened BookInvariants
  import opened SubmitProtocol
  import Risk

  const X := "X"

  /** Every limit is on, and none of them alone refuses every order. */
  predicate Permits(limits: Risk.RiskLimits) {
    && limits.enabled && limits.maxPosition >= 1 && limits.maxOrderQty >= 1
    && limits.maxNotional > 0.0 && limits.maxOrdersPerSec >= 1
  }

  // ---------------------------------------------------------------- a market maker on both sides

  /** Two orders rest for the whole run: a bid with id 0 and an offer with id 1. */
  function MakerId(side: Side): OrderId {
    if side.Buy? then 0 else 1
  }

  function MakerPrice(side: Side): Price {
    if side.Buy? then 99 else 101
  }

  /** Nothing else rests, and more than `need` is left of the maker on the given side. */
  ghost predicate Deep(b: Book, side: Side, need: Quantity) {
    && b.symbol == X && |b.resting| == 2 && b.resting[0].side != b.resting[1].side
    && forall i :: 0 <= i < 2 ==>
         var o := b.resting[i];
         && o.id == MakerId(o.side) && o.price == MakerPrice(o.side)
         && o.Remaining() > if o.side == side then need else 0
  }

  /** An order that takes its whole quantity from the maker on the other side. */
  ghost predicate Takes(o: OrderRec, side: Side, q: Quantity) {
    o.side == side && o.typ.Limit? && o.price == MakerPrice(side.Opposite()) && o.qty == q && o.filled == 0 && o.id >= 2
  }

  lemma SweepOnce(b: Book, o: OrderRec)
    requires CanFill(b, o) && FillBest(b, o).order.Remaining() <= 0
    ensures Sweep(b, o) == FillBest(b, o)
  {
  }

  lemma TakerFills(b: Book, o: OrderRec, side: Side, need: Quantity, q: Quantity)
    requires need >= q > 0 && Deep(b, side.Opposite(), need) && Takes(o, side, q)
    ensures var r := Add(b, o);
            && Deep(r.book, side.Opposite(), need - q) && |r.trades| == 1
            && r.trades[0].symbol == X && r.trades[0].qty == q && FillSide(r.trades[0], o) == side
  {
    hide Best;
    var o1 := o.(status := New);
    var b1 := Notify(b, o1);
    var k := Best(b1.resting, side.Opposite());
    assert b1.resting == [b.resting[0], b.resting[1]];
    assert k < 2 && CanFill(b1, o1);
    SweepOnce(b1, o1);
  }

  /** A modify tops the maker up as far as anybody will want; no check looks at that. */
  lemma MakerDeepens(b: Book, side: Side, need: nat)
    requires Deep(b, side, 0)
    ensures var k := Find(b.resting, MakerId(side));
            k < |b.resting|
              && Deep(Modify(b, MakerId(side), MakerPrice(side), b.resting[k].filled + need + 1).0, side, need)
  {
    hide Find, RemoveAt;
    var rs := b.resting;
    var k := if rs[0].side == side then 0 else 1;
    FindIs(rs, k);
    OneOfTwo(rs, k);
    var o := rs[k].(price := MakerPrice(side), qty := rs[k].filled + need + 1);
    assert Modify(b, MakerId(side), o.price, o.qty).0.resting == [rs[1 - k], o];
  }

  lemma OneOfTwo(rs: seq<OrderRec>, k: nat)
    requires |rs| == 2 && k < 2
    ensures RemoveAt(rs, k) == [rs[1 - k]]
  {
  }

  lemma MakerGrows(sys: Sys, side: Side, need: nat)
    requires sys.flights == [] && X in sys.books && Deep(sys.books[X], side, 0)
    ensures var k := Find(sys.books[X].resting, MakerId(side));
            && k < |sys.books[X].resting|
            && var a := ModifyOrder(X, MakerId(side), MakerPrice(side), sys.books[X].resting[k].filled + need + 1);
            && Enabled(sys, a)
            && var sys' := Do(sys, a);
            && sys'.flights == [] && sys'.risk == sys.risk && sys'.used == sys.used
            && X in sys'.books && Deep(sys'.books[X], side, need)
  {
    hide Deep, Modify, Find;
    MakerDeepens(sys.books[X], side, need);
  }

  // ---------------------------------------------------------------- approvals

  /** Everybody is through; the clock stands at `now`, and the next id is `next`. */
  ghost predicate Ready(sys: Sys, limits: Risk.RiskLimits, next: OrderId, now: int) {
    && X in sys.books && sys.risk.limits == limits && next >= 2
    && (forall i :: 0 <= i < |sys.risk.stamps| ==> sys.risk.stamps[i] <= now)
    && (forall id :: id in sys.used ==> id < next)
  }

  lemma {:induction false} OldOnesGo(stamps: seq<int>, cutoff: int)
    requires forall i :: 0 <= i < |stamps| ==> stamps[i] < cutoff
    ensures Risk.PopOld(stamps, cutoff) == []
  {
    if stamps != [] {
      OldOnesGo(stamps[1..], cutoff);
    }
  }

  /** A price at which even the largest order is within the notional limit. */
  function Cheap(limits: Risk.RiskLimits): real
    requires Permits(limits)
  {
    limits.maxNotional / limits.maxOrderQty as real
  }

  lemma CheapEnough(limits: Risk.RiskLimits, q: Quantity)
    requires Permits(limits) && 0 < q <= limits.maxOrderQty
    ensures Cheap(limits) > 0.0 && Cheap(limits) * q as real <= limits.maxNotional
  {
    var c, m := Cheap(limits), limits.maxOrderQty as real;
    assert c * m == limits.maxNotional;
    assert c * (m - q as real) >= 0.0;
  }

  /** Two seconds after the last check the rate limit has nothing to say. */
  lemma Approves(sys: Sys, o: OrderRec, limits: Risk.RiskLimits, now: int)
    requires Permits(limits) && sys.risk.limits == limits && o.id !in sys.used
    requires forall i :: 0 <= i < |sys.risk.stamps| ==> sys.risk.stamps[i] <= now
    requires 0 < o.qty <= limits.maxOrderQty && o.filled == 0 && o.price > 0
    requires Abs(NetOf(sys, X) + Signed(o.side, o.qty)) <= limits.maxPosition
    ensures var a := Submit(X, o, Cheap(limits), now + 2 * Risk.WINDOW_NS, now + 2 * Risk.WINDOW_NS);
            && Enabled(sys, a)
            && var sys' := Do(sys, a);
            && sys'.flights == sys.flights + [Checked(X, o)] && sys'.books == sys.books
                 && NetOf(sys', X) == NetOf(sys, X)
            && sys'.used == sys.used + {o.id} && sys'.risk.limits == limits
            && forall i :: 0 <= i < |sys'.risk.stamps| ==> sys'.risk.stamps[i] <= now + 2 * Risk.WINDOW_NS
  {
    hide Risk.PopOld, Cheap;
    CheapEnough(limits, o.qty);
    OldOnesGo(sys.risk.stamps, now + Risk.WINDOW_NS);
    assert Risk.EarlyVerdict(sys.risk, X, o, Cheap(limits)) == Risk.Approved;
  }

  lemma ApprovesNext(sys: Sys, o: OrderRec, limits: Risk.RiskLimits, next: OrderId, now: int)
    requires Permits(limits) && Ready(sys, limits, next, now) && o.id == next
    requires 0 < o.qty <= limits.maxOrderQty && o.filled == 0 && o.price > 0
    requires Abs(NetOf(sys, X) + Signed(o.side, o.qty)) <= limits.maxPosition
    ensures var a := Submit(X, o, Cheap(limits), now + 2 * Risk.WINDOW_NS, now + 2 * Risk.WINDOW_NS);
            && Enabled(sys, a)
            && var sys' := Do(sys, a);
            && Ready(sys', limits, next + 1, now + 2 * Risk.WINDOW_NS)
            && sys'.flights == sys.flights + [Checked(X, o)] && sys'.books == sys.books
                 && NetOf(sys', X) == NetOf(sys, X)
  {
    hide Do, Enabled, NetOf, Cheap;
    Approves(sys, o, limits, now);
  }

  // ---------------------------------------------------------------- a push

  /** Approved takers waiting for the lock, and enough on offer for them and `more` others. */
  ghost predicate Waiting(sys: Sys, side: Side, q: Quantity, more: nat) {
    && X in sys.books && Deep(sys.books[X], side.Opposite(), (|sys.flights| + more) * q)
    && forall i :: 0 <= i < |sys.flights| ==>
         sys.flights[i].Checked? && sys.flights[i].symbol == X && Takes(sys.flights[i].order, side, q)
  }

  lemma {:induction false} AllInFlight(fs: seq<Flight>)
    requires forall i :: 0 <= i < |fs| ==> fs[i].symbol == X
    ensures InFlight(fs, X) == |fs|
  {
    if fs != [] {
      AllInFlight(fs[1..]);
    }
  }

  lemma ReportMovesNet(sys: Sys, i: nat)
    requires Enabled(sys, ReportFill(i)) && sys.flights[i].pending[0].symbol == X
    ensures var t := sys.flights[i].pending[0];
            NetOf(Do(sys, ReportFill(i)), X) == NetOf(sys, X) + Signed(FillSide(t, sys.flights[i].order), t.qty)
  {
    hide Risk.WithFill;
    var t := sys.flights[i].pending[0];
    Risk.FillMovesNet(Risk.PositionOf(sys.risk.positions, X), FillSide(t, sys.flights[i].order), t.qty,
      Risk.FromPrice(t.price));
  }

  /** The first waiting taker enters, reports its fill and leaves. */
  lemma TakerPasses(sys: Sys, side: Side, q: Quantity, k: nat) returns (actions: seq<Action>, sys': Sys)
    requires q > 0 && Waiting(sys, side, q, 0) && 0 < |sys.flights| <= k
    ensures Leads(X, sys, actions, sys', k)
    ensures Waiting(sys', side, q, 0) && sys'.flights == sys.flights[1..]
              && NetOf(sys', X) == NetOf(sys, X) + Signed(side, q)
    ensures sys'.risk.limits == sys.risk.limits && sys'.risk.stamps == sys.risk.stamps && sys'.used == sys.used
  {
    hide Add, Risk.WithFill, InFlight, Leads, Deep, Takes, NetOf;
    var f := sys.flights[0];
    Distribute(|sys.flights| - 1, q);
    Monotone(0, |sys.flights| - 1, q);
    TakerFills(sys.books[X], f.order, side, |sys.flights| * q, q);
    var r := Add(sys.books[X], f.order);
    var sys1 := Do(sys, Enter(0));
    assert sys1.flights == [Filling(X, f.order, r.trades)] + sys.flights[1..];
    var sys2 := Do(sys1, ReportFill(0));
    assert r.trades[1..] == [];
    assert sys2.flights == [Filling(X, f.order, [])] + sys.flights[1..];
    ReportMovesNet(sys1, 0);
    sys' := Do(sys2, Exit(0));
    assert sys'.flights == sys.flights[1..];
    AllInFlight(sys.flights);
    AllInFlight(sys1.flights);
    AllInFlight(sys2.flights);
    AllInFlight(sys'.flights);
    OneLeads(X, sys, Enter(0), k);
    OneLeads(X, sys1, ReportFill(0), k);
    OneLeads(X, sys2, Exit(0), k);
    LeadsOn(X, sys, [Enter(0)], sys1, [ReportFill(0)], sys2, k);
    actions := [Enter(0)] + [ReportFill(0)] + [Exit(0)];
    LeadsOn(X, sys, [Enter(0)] + [ReportFill(0)], sys2, [Exit(0)], sys', k);
    SameNet(sys1, sys);
    SameNet(sys', sys2);
  }

  lemma SameNet(a: Sys, c: Sys)
    requires a.risk == c.risk
    ensures NetOf(a, X) == NetOf(c, X)
  {
  }

  lemma {:induction false} TakersPass(sys: Sys, side: Side, q: Quantity, k: nat)
    returns (actions: seq<Action>, sys': Sys)
    requires q > 0 && Waiting(sys, side, q, 0) && |sys.flights| <= k
    ensures Leads(X, sys, actions, sys', k)
    ensures Waiting(sys', side, q, 0) && sys'.flights == []
              && NetOf(sys', X) == NetOf(sys, X) + |sys.flights| * Signed(side, q)
    ensures sys'.risk.limits == sys.risk.limits && sys'.risk.stamps == sys.risk.stamps && sys'.used == sys.used
    decreases |sys.flights|
  {
    hide Waiting, InFlight, NetOf, Leads;
    if sys.flights == [] {
      NobodyInFlight();
      LeadsNowhere(X, sys, k);
      return [], sys;
    }
    var first, sys1 := TakerPasses(sys, side, q, k);
    var rest, last := TakersPass(sys1, side, q, k);
    LeadsOn(X, sys, first, sys1, rest, last, k);
    Distribute(|sys1.flights|, Signed(side, q));
    return first + rest, last;
  }

  lemma NobodyInFlight()
    ensures InFlight([], X) == 0
  {
  }

  /** All takers are approved before the first of them enters, so none of the checks sees the others. */
  lemma {:induction false} TakersSubmit(sys: Sys, side: Side, q: Quantity, more: nat, limits: Risk.RiskLimits,
                                        next: OrderId, now: int, k: nat)
    returns (actions: seq<Action>, sys': Sys, next': OrderId, now': int)
    requires Permits(limits) && Ready(sys, limits, next, now) && 0 < q <= limits.maxOrderQty
    requires Waiting(sys, side, q, more) && |sys.flights| + more <= k
    requires Abs(NetOf(sys, X) + Signed(side, q)) <= limits.maxPosition
    ensures Leads(X, sys, actions, sys', k) && Ready(sys', limits, next', now')
    ensures Waiting(sys', side, q, 0) && |sys'.flights| == |sys.flights| + more && NetOf(sys', X) == NetOf(sys, X)
    decreases more
  {
    hide Do, Enabled, InFlight, NetOf, Leads, Ready, Deep, Permits;
    AllInFlight(sys.flights);
    if more == 0 {
      LeadsNowhere(X, sys, k);
      return [], sys, next, now;
    }
    ReadyIsPastTwo(sys, limits, next, now);
    var o := OrderRec(next, side, Limit, MakerPrice(side.Opposite()), q, 0, Pending);
    var a := Submit(X, o, Cheap(limits), now + 2 * Risk.WINDOW_NS, now + 2 * Risk.WINDOW_NS);
    ApprovesNext(sys, o, limits, next, now);
    AllInFlight(Do(sys, a).flights);
    OneLeads(X, sys, a, k);
    var rest;
    var now1 := now + 2 * Risk.WINDOW_NS;
    rest, sys', next', now' := TakersSubmit(Do(sys, a), side, q, more - 1, limits, next + 1, now1, k);
    LeadsOn(X, sys, [a], Do(sys, a), rest, sys', k);
    actions := [a] + rest;
  }

  lemma ReadyIsPastTwo(sys: Sys, limits: Risk.RiskLimits, next: OrderId, now: int)
    requires Ready(sys, limits, next, now)
    ensures next >= 2 && X in sys.books
  {
  }

  /** Nobody in flight, both makers resting. */
  ghost predicate Quiet(sys: Sys, limits: Risk.RiskLimits, next: OrderId, now: int) {
    Ready(sys, limits, next, now) && sys.flights == [] && Deep(sys.books[X], Buy, 0)
  }

  lemma DeepEitherWay(b: Book, side: Side, need: Quantity)
    requires Deep(b, side, need) && need >= 0
    ensures Deep(b, Buy, 0) && Deep(b, Sell, 0)
  {
  }

  /** j submitters, all approved at the present position, move it by j orders of size q. */
  lemma Push(sys: Sys, side: Side, q: Quantity, j: nat, limits: Risk.RiskLimits, next: OrderId, now: int, k: nat)
    returns (actions: seq<Action>, sys': Sys, next': OrderId, now': int)
    requires Permits(limits) && Quiet(sys, limits, next, now) && 0 < q <= limits.maxOrderQty && j <= k
    requires Abs(NetOf(sys, X) + Signed(side, q)) <= limits.maxPosition
    ensures Leads(X, sys, actions, sys', k) && Quiet(sys', limits, next', now')
    ensures NetOf(sys', X) == NetOf(sys, X) + j * Signed(side, q)
  {
    hide Do, Enabled, InFlight, NetOf, Leads, Deep, Permits;
    var maker := side.Opposite();
    DeepEitherWay(sys.books[X], Buy, 0);
    Monotone(0, j, q);
    MakerGrows(sys, maker, j * q);
    var kk := Find(sys.books[X].resting, MakerId(maker));
    var a := ModifyOrder(X, MakerId(maker), MakerPrice(maker), sys.books[X].resting[kk].filled + j * q + 1);
    var sys1 := Do(sys, a);
    NobodyInFlight();
    OneLeads(X, sys, a, k);
    SameNet(sys1, sys);
    var submits, passes, sys2;
    submits, sys2, next', now' := TakersSubmit(sys1, side, q, j, limits, next, now, k);
    passes, sys' := TakersPass(sys2, side, q, k);
    LeadsOn(X, sys, [a], sys1, submits, sys2, k);
    actions := [a] + submits + passes;
    LeadsOn(X, sys, [a] + submits, sys2, passes, sys', k);
    DeepEitherWay(sys'.books[X], maker, 0);
  }

  // ---------------------------------------------------------------- reaching positions

  /** One unit at a time, any position within the limit. */
  lemma {:induction false} ReachInside(sys: Sys, n: int, limits: Risk.RiskLimits, next: OrderId, now: int, k: nat)
    returns (actions: seq<Action>, sys': Sys, next': OrderId, now': int)
    requires Permits(limits) && Quiet(sys, limits, next, now) && k >= 1 && NetOf(sys, X) == 0
    requires Abs(n) <= limits.maxPosition
    ensures Leads(X, sys, actions, sys', k) && Quiet(sys', limits, next', now') && NetOf(sys', X) == n
    decreases Abs(n)
  {
    hide InFlight, NetOf, Leads, Quiet, LegalActions, AtMostInFlight;
    if n == 0 {
      QuietIsEmpty(sys, limits, next, now);
      LeadsNowhere(X, sys, k);
      return [], sys, next, now;
    }
    var side := if n > 0 then Buy else Sell;
    var before, sys1, next1, now1 := ReachInside(sys, n - Signed(side, 1), limits, next, now, k);
    var last;
    last, sys', next', now' := Push(sys1, side, 1, 1, limits, next1, now1, k);
    LeadsOn(X, sys, before, sys1, last, sys', k);
    actions := before + last;
  }

  lemma QuietIsEmpty(sys: Sys, limits: Risk.RiskLimits, next: OrderId, now: int)
    requires Quiet(sys, limits, next, now)
    ensures InFlight(sys.flights, X) == 0
  {
  }

  /** Two at a time, positions up to one order beyond the limit: swing to the other side far enough that
      two orders, each of which alone would end exactly on the limit, carry the position across. */
  lemma {:induction false} ReachOutside(sys: Sys, n: int, limits: Risk.RiskLimits, next: OrderId, now: int, k: nat)
    returns (actions: seq<Action>, sys': Sys, next': OrderId, now': int)
    requires Permits(limits) && Quiet(sys, limits, next, now) && k >= 2 && NetOf(sys, X) == 0
    requires Abs(n) <= limits.maxPosition + limits.maxOrderQty
    ensures Leads(X, sys, actions, sys', k) && Quiet(sys', limits, next', now') && NetOf(sys', X) == n
    decreases Abs(n)
  {
    hide InFlight, NetOf, Leads, Quiet, LegalActions, AtMostInFlight;
    var max := limits.maxPosition;
    if Abs(n) <= max {
      actions, sys', next', now' := ReachInside(sys, n, limits, next, now, k);
      return;
    }
    var side := if n > 0 then Buy else Sell;
    var q := Abs(n) - max;
    var before, sys1, next1, now1 := ReachOutside(sys, n - Signed(side, 2 * q), limits, next, now, k);
    var last;
    last, sys', next', now' := Push(sys1, side, q, 2, limits, next1, now1, k);
    LeadsOn(X, sys, before, sys1, last, sys', k);
    actions := before + last;
  }

  // ---------------------------------------------------------------- the start

  /** A maker is submitted, meets nobody, and rests. */
  lemma MakerRests(sys: Sys, side: Side, limits: Risk.RiskLimits, now: int, k: nat)
    returns (actions: seq<Action>, sys': Sys)
    requires Permits(limits) && k >= 1 && sys.risk.limits == limits && NetOf(sys, X) == 0
    requires sys.flights == [] && X in sys.books && sys.books[X].symbol == X
    requires forall i :: 0 <= i < |sys.risk.stamps| ==> sys.risk.stamps[i] <= now
    requires MakerId(side) !in sys.used
    requires forall i :: 0 <= i < |sys.books[X].resting| ==>
               sys.books[X].resting[i].side == side || sys.books[X].resting[i].price == MakerPrice(side.Opposite())
    ensures Leads(X, sys, actions, sys', k)
    ensures sys'.flights == [] && X in sys'.books && sys'.books[X].symbol == X && NetOf(sys', X) == 0
    ensures sys'.books[X].resting
              == sys.books[X].resting + [OrderRec(MakerId(side), side, Limit, MakerPrice(side), 1, 0, New)]
    ensures sys'.used == sys.used + {MakerId(side)} && sys'.risk.limits == limits
    ensures forall i :: 0 <= i < |sys'.risk.stamps| ==> sys'.risk.stamps[i] <= now + 2 * Risk.WINDOW_NS
  {
    hide InFlight, Leads, Add;
    var o := OrderRec(MakerId(side), side, Limit, MakerPrice(side), 1, 0, Pending);
    var a := Submit(X, o, Cheap(limits), now + 2 * Risk.WINDOW_NS, now + 2 * Risk.WINDOW_NS);
    Approves(sys, o, limits, now);
    assert Do(sys, a).flights == [Checked(X, o)];
    var sys1 := Do(sys, a);
    Unmatched(sys.books[X], o);
    var sys2 := Do(sys1, Enter(0));
    assert sys2.flights == [Filling(X, o, [])];
    sys' := Do(sys2, Exit(0));
    assert sys'.flights == [];
    AllInFlight(sys.flights);
    AllInFlight(sys1.flights);
    AllInFlight(sys2.flights);
    OneLeads(X, sys, a, k);
    OneLeads(X, sys1, Enter(0), k);
    OneLeads(X, sys2, Exit(0), k);
    LeadsOn(X, sys, [a], sys1, [Enter(0)], sys2, k);
    LeadsOn(X, sys, [a] + [Enter(0)], sys2, [Exit(0)], sys', k);
    actions := [a] + [Enter(0)] + [Exit(0)];
    SameNet(sys2, sys1);
    SameNet(sys', sys2);
  }

  lemma Unmatched(b: Book, o: OrderRec)
    requires o.typ.Limit? && o.price == MakerPrice(o.side) && o.filled == 0
    requires forall i :: 0 <= i < |b.resting| ==>
               b.resting[i].side == o.side || b.resting[i].price == MakerPrice(o.side.Opposite())
    ensures var r := Add(b, o);
            r.trades == [] && r.book.resting == b.resting + [o.(status := New)] && r.book.symbol == b.symbol
  {
    hide Best;
    assert !CanFill(Notify(b, o.(status := New)), o.(status := New));
  }

  lemma GetQuiet(limits: Risk.RiskLimits, k: nat) returns (actions: seq<Action>, sys': Sys, now: int)
    requires Permits(limits) && k >= 1
    ensures Leads(X, Start({X}, limits), actions, sys', k) && Quiet(sys', limits, 2, now) && NetOf(sys', X) == 0
  {
    hide Leads, Permits;
    var start := Start({X}, limits);
    var first, sys1 := MakerRests(start, Buy, limits, 0, k);
    var second;
    second, sys' := MakerRests(sys1, Sell, limits, 2 * Risk.WINDOW_NS, k);
    now := 4 * Risk.WINDOW_NS;
    LeadsOn(X, start, first, sys1, second, sys', k);
    actions := first + second;
  }

  // ---------------------------------------------------------------- the theorems

  /** For all such limits, any k and either side: a run with at most k in flight that reaches the bound. */
  lemma BoundIsTight(limits: Risk.RiskLimits, k: nat, side: Side)
    requires Permits(limits) && k >= 1
    ensures exists actions :: LegalActions(Start({X}, limits), actions)
              && AtMostInFlight(Start({X}, limits), actions, X, k)
              && NetOf(DoAll(Start({X}, limits), actions), X)
                   == Signed(side, limits.maxPosition + (k - 1) * limits.maxOrderQty)
  {
    hide InFlight, NetOf, Leads, Quiet, LegalActions, AtMostInFlight;
    var start, max, m := Start({X}, limits), limits.maxPosition, limits.maxOrderQty;
    var actions, sys, now := GetQuiet(limits, k);
    var more, sys', next', now';
    if k == 1 {
      more, sys', next', now' := ReachInside(sys, Signed(side, max), limits, 2, now, k);
      LeadsOn(X, start, actions, sys, more, sys', k);
      Reached(start, actions + more, sys', k);
    } else {
      more, sys', next', now' := ReachOutside(sys, Signed(side, max - m), limits, 2, now, k);
      LeadsOn(X, start, actions, sys, more, sys', k);
      var last, sys'', next'', now'' := Push(sys', side, m, k, limits, next', now', k);
      LeadsOn(X, start, actions + more, sys', last, sys'', k);
      Distribute(k - 1, Signed(side, m));
      SignedTimes(k - 1, side, m);
      Reached(start, actions + more + last, sys'', k);
    }
  }

  lemma SignedTimes(n: nat, side: Side, m: Quantity)
    ensures n * Signed(side, m) == Signed(side, n * m)
  {
  }

  lemma Reached(sys: Sys, actions: seq<Action>, sys': Sys, k: nat)
    requires Leads(X, sys, actions, sys', k)
    ensures LegalActions(sys, actions) && AtMostInFlight(sys, actions, X, k) && DoAll(sys, actions) == sys'
  {
  }

  // ---------------------------------------------------------------- limits that let nothing through

  /** Nothing rests anywhere, no position is open, and whoever is in flight can neither rest nor trade. */
  ghost predicate Idle(sys: Sys) {
    && sys.risk.limits.enabled && !Permits(sys.risk.limits)
    && (forall s :: s in sys.books ==> sys.books[s].resting == [])
    && (forall s :: s in sys.risk.positions ==> sys.risk.positions[s].netQty == 0)
    && (forall i :: 0 <= i < |sys.flights| ==>
         !sys.flights[i].order.typ.Limit? && (sys.flights[i].Filling? ==> sys.flights[i].pending == []))
  }

  /** From a flat position such limits approve no limit order: at best an order with no price of its own. */
  lemma ApprovedCannotRest(st: Risk.RiskState, symbol: string, o: OrderRec, currentPrice: real, windowNow: int,
                           stampNow: int)
    requires st.limits.enabled && !Permits(st.limits) && Risk.PositionOf(st.positions, symbol).netQty == 0
    ensures var (st', verdict) := Risk.Check(st, symbol, o, currentPrice, windowNow, stampNow);
            st'.limits == st.limits && st'.positions == st.positions && (verdict == Risk.Approved ==> !o.typ.Limit?)
  {
    hide Risk.PopOld;
    if o.typ.Limit? && o.price > 0 && o.qty > 0 {
      PricedOrderCosts(if currentPrice > 0.0 then currentPrice else Risk.FromPrice(o.price), o.qty);
    }
  }

  lemma PricedOrderCosts(price: real, qty: Quantity)
    requires price > 0.0 && qty > 0
    ensures price * qty as real > 0.0
  {
  }

  lemma NothingToTake(b: Book, o: OrderRec)
    requires b.resting == [] && !o.typ.Limit?
    ensures Add(b, o).trades == [] && Add(b, o).book.resting == []
  {
  }

  lemma StepStaysIdle(sys: Sys, a: Action)
    requires Idle(sys) && Enabled(sys, a)
    ensures Idle(Do(sys, a)) && Do(sys, a).risk.limits == sys.risk.limits
  {
    hide Add, Risk.Check, Permits;
    match a
    case Submit(s, o, price, w, t) => ApprovedCannotRest(sys.risk, s, o, price, w, t);
    case Enter(i) =>
      if sys.flights[i].symbol in sys.books {
        NothingToTake(sys.books[sys.flights[i].symbol], sys.flights[i].order);
      }
    case ReportFill(_) =>
    case Exit(_) =>
    case CancelOrder(_, _) =>
    case ModifyOrder(_, _, _, _) =>
    case Tick(_, _) =>
  }

  lemma {:induction false} StaysIdle(sys: Sys, actions: seq<Action>)
    requires Idle(sys) && LegalActions(sys, actions)
    ensures NetOf(DoAll(sys, actions), X) == 0
    decreases |actions|
  {
    hide Do, Enabled;
    if actions != [] {
      StepStaysIdle(sys, actions[0]);
      StaysIdle(Do(sys, actions[0]), actions[1..]);
    }
  }

  /** So max_position itself is kept by every run with at most k in flight if and only if k is one, or the
      limits let nothing through that could ever open a position. */
  lemma PlainLimitIffAlone(limits: Risk.RiskLimits, k: nat)
    requires limits.enabled && limits.maxPosition >= 0 && k >= 1
    ensures (forall actions ::
               LegalActions(Start({X}, limits), actions) && AtMostInFlight(Start({X}, limits), actions, X, k) ==>
                 Abs(NetOf(DoAll(Start({X}, limits), actions), X)) <= limits.maxPosition)
            <==> k == 1 || !Permits(limits)
  {
    hide InFlight, NetOf, LegalActions, AtMostInFlight, DoAll;
    if !Permits(limits) {
      forall actions | LegalActions(Start({X}, limits), actions)
        ensures Abs(NetOf(DoAll(Start({X}, limits), actions), X)) <= limits.maxPosition
      {
        StaysIdle(Start({X}, limits), actions);
      }
    } else if k == 1 {
      forall actions | LegalActions(Start({X}, limits), actions) && AtMostInFlight(Start({X}, limits), actions, X, 1)
        ensures Abs(NetOf(DoAll(Start({X}, limits), actions), X)) <= limits.maxPosition
      {
        PositionStaysBounded({X}, limits, actions, X, 1);
      }
    } else {
      BoundIsTight(limits, k, Buy);
      Monotone(1, k - 1, limits.maxOrderQty);
    }
  }
}
