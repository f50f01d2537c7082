/**
 The submit path as a protocol: any number of submitters, each checking risk before it takes the
 exchange lock, matching under the lock, and reporting its fills to the risk manager one at a time,
 with checks by others in between. Only the incoming side of a trade is reported.
 */
module SubmitProtocol {
  import opened Types
  import opened FlatBook
  import opened BookInvariants
  import opened Matching
  import opened Lifecycle
  import opened TakerFlow
  import Risk

  /** A submitter between its approval and its last fill report. Filling means it holds the lock. */
  datatype Flight =
    | Checked(symbol: string, order: OrderRec)
    | Filling(symbol: string, order: OrderRec, pending: seq<Trade>)

  /** `used` holds every order id ever submitted; ids come from one counter and never repeat. */
  datatype Sys = Sys(books: map<string, Book>, risk: Risk.RiskState, flights: seq<Flight>, used: set<OrderId>)

  datatype Action =
    | Submit(symbol: string, order: OrderRec, currentPrice: real, windowNow: int, stampNow: int)
    | Enter(i: nat)
    | ReportFill(i: nat)
    | Exit(i: nat)
    | CancelOrder(symbol: string, id: OrderId)
    | ModifyOrder(symbol: string, id: OrderId, price: Price, qty: Quantity)
    | Tick(symbol: string, lastPrice: real)

  predicate LockFree(sys: Sys) {
    forall i :: 0 <= i < |sys.flights| ==> sys.flights[i].Checked?
  }

  predicate Enabled(sys: Sys, a: Action) {
    match a
    case Submit(_, order, _, _, _) => order.id !in sys.used && order.filled == 0
    case Enter(i) => i < |sys.flights| && sys.flights[i].Checked? && LockFree(sys)
    case ReportFill(i) => i < |sys.flights| && sys.flights[i].Filling? && sys.flights[i].pending != []
    case Exit(i) => i < |sys.flights| && sys.flights[i].Filling? && sys.flights[i].pending == []
    case _ => LockFree(sys)
  }

  /** The side reported for a trade is recovered from the trade's buyer id. */
  function FillSide(t: Trade, o: OrderRec): Side {
    if t.buyId == o.id then Buy else Sell
  }

  function Do(sys: Sys, a: Action): Sys
    requires Enabled(sys, a)
  {
    match a
    case Submit(symbol, order, currentPrice, windowNow, stampNow) =>
      var (risk, verdict) := Risk.Check(sys.risk, symbol, order, currentPrice, windowNow, stampNow);
      sys.(risk := risk, used := sys.used + {order.id},
           flights := if verdict == Risk.Approved then sys.flights + [Checked(symbol, order)] else sys.flights)
    case Enter(i) =>
      var f := sys.flights[i];
      if f.symbol !in sys.books then sys.(flights := RemoveAt(sys.flights, i))
      else
        var r := Add(sys.books[f.symbol], f.order);
        sys.(books := sys.books[f.symbol := r.book], flights := sys.flights[i := Filling(f.symbol, f.order, r.trades)])
    case ReportFill(i) =>
      var f := sys.flights[i];
      var t := f.pending[0];
      sys.(risk := Risk.OnFill(sys.risk, t.symbol, FillSide(t, f.order), t.qty, Risk.FromPrice(t.price)),
           flights := sys.flights[i := f.(pending := f.pending[1..])])
    case Exit(i) => sys.(flights := RemoveAt(sys.flights, i))
    case CancelOrder(symbol, id) =>
      if symbol !in sys.books then sys else sys.(books := sys.books[symbol := Cancel(sys.books[symbol], id).0])
    case ModifyOrder(symbol, id, price, qty) =>
      if symbol !in sys.books then sys
        else sys.(books := sys.books[symbol := Modify(sys.books[symbol], id, price, qty).0])
    case Tick(symbol, price) => sys.(risk := Risk.OnPrice(sys.risk, symbol, price))
  }

  function Start(symbols: set<string>, limits: Risk.RiskLimits): Sys {
    Sys(map s | s in symbols :: Empty(s), Risk.Fresh(limits), [], {})
  }

  // ---------------------------------------------------------------- quantities in flight

  function NetOf(sys: Sys, symbol: string): int {
    Risk.PositionOf(sys.risk.positions, symbol).netQty
  }

  /** What a submitter may still add to the position on one side. */
  function Owed(f: Flight, symbol: string, side: Side): int {
    if f.symbol != symbol || f.order.side != side then 0
    else if f.Checked? then f.order.qty else Volume(f.pending)
  }

  function AllOwed(fs: seq<Flight>, symbol: string, side: Side): int {
    if fs == [] then 0 else Owed(fs[0], symbol, side) + AllOwed(fs[1..], symbol, side)
  }

  /** Fills made but not yet reported. */
  function Unreported(fs: seq<Flight>, symbol: string): int {
    if fs == [] then 0
    else (if fs[0].symbol == symbol && fs[0].Filling? then Signed(fs[0].order.side, Volume(fs[0].pending)) else 0)
         + Unreported(fs[1..], symbol)
  }

  function InFlight(fs: seq<Flight>, symbol: string): nat {
    if fs == [] then 0 else (if fs[0].symbol == symbol then 1 else 0) + InFlight(fs[1..], symbol)
  }

  lemma {:induction false} InFlightAtMost(fs: seq<Flight>, symbol: string)
    ensures InFlight(fs, symbol) <= |fs|
  {
    if fs != [] {
      InFlightAtMost(fs[1..], symbol);
    }
  }

  lemma {:induction false} SumsConcat(a: seq<Flight>, c: seq<Flight>, symbol: string)
    ensures forall side :: AllOwed(a + c, symbol, side) == AllOwed(a, symbol, side) + AllOwed(c, symbol, side)
    ensures Unreported(a + c, symbol) == Unreported(a, symbol) + Unreported(c, symbol)
    ensures InFlight(a + c, symbol) == InFlight(a, symbol) + InFlight(c, symbol)
  {
    if a == [] {
      assert a + c == c;
    } else {
      assert (a + c)[1..] == a[1..] + c;
      SumsConcat(a[1..], c, symbol);
    }
  }

  /** All three sums with flight i taken out and put back as f. */
  lemma SumsAt(fs: seq<Flight>, i: nat, f: Flight, symbol: string)
    requires i < |fs|
    ensures forall side ::
              AllOwed(fs[i := f], symbol, side)
                == AllOwed(fs, symbol, side) - Owed(fs[i], symbol, side) + Owed(f, symbol, side)
    ensures forall side ::
              AllOwed(RemoveAt(fs, i), symbol, side) == AllOwed(fs, symbol, side) - Owed(fs[i], symbol, side)
    ensures Unreported(fs[i := f], symbol)
              == Unreported(fs, symbol) - Unreported([fs[i]], symbol) + Unreported([f], symbol)
    ensures Unreported(RemoveAt(fs, i), symbol) == Unreported(fs, symbol) - Unreported([fs[i]], symbol)
    ensures f.symbol == fs[i].symbol ==> InFlight(fs[i := f], symbol) == InFlight(fs, symbol)
    ensures InFlight(RemoveAt(fs, i), symbol) <= InFlight(fs, symbol)
  {
    var a, c := fs[..i], fs[i + 1..];
    assert fs == a + ([fs[i]] + c) && fs[i := f] == a + ([f] + c);
    SumsConcat(a, [fs[i]] + c, symbol);
    SumsConcat([fs[i]], c, symbol);
    SumsConcat(a, [f] + c, symbol);
    SumsConcat([f], c, symbol);
    SumsConcat(a, c, symbol);
    SumsOfOne(fs[i], symbol);
    SumsOfOne(f, symbol);
  }

  lemma SumsOfOne(f: Flight, symbol: string)
    ensures forall side :: AllOwed([f], symbol, side) == Owed(f, symbol, side)
    ensures InFlight([f], symbol) == if f.symbol == symbol then 1 else 0
  {
  }

  // ---------------------------------------------------------------- the invariant

  ghost predicate FlightOk(sys: Sys, f: Flight) {
    && 0 < f.order.qty <= sys.risk.limits.maxOrderQty && f.order.filled == 0 && f.order.id in sys.used
    && (f.Checked? ==> forall s :: s in sys.books ==> f.order.id !in Known(sys.books[s]))
    && (f.Filling? ==> f.symbol in sys.books && 0 <= Volume(f.pending) <= f.order.qty
                       && forall j :: 0 <= j < |f.pending| ==> TakenBy(f.pending[j], f.symbol, f.order))
  }

  ghost predicate BookOk(sys: Sys, s: string)
    requires s in sys.books
  {
    && WellFormed(sys.books[s]) && sys.books[s].symbol == s && Settled(sys.books[s].log)
    && Known(sys.books[s]) <= sys.used
  }

  ghost predicate FlowOk(sys: Sys, s: string)
    requires s in sys.books
  {
    NetOf(sys, s) + Unreported(sys.flights, s) == Flow(sys.books[s].log)
  }

  ghost predicate Inv(sys: Sys) {
    && sys.risk.limits.enabled
    && (forall s :: s in sys.books ==> BookOk(sys, s))
    && (forall i :: 0 <= i < |sys.flights| ==> FlightOk(sys, sys.flights[i]))
    && (forall i, j :: 0 <= i < j < |sys.flights| ==> sys.flights[i].order.id != sys.flights[j].order.id)
    && (forall i, j :: 0 <= i < j < |sys.flights| ==> sys.flights[i].Checked? || sys.flights[j].Checked?)
    && (forall s :: s in sys.books ==> FlowOk(sys, s))
  }

  lemma StartInv(symbols: set<string>, limits: Risk.RiskLimits)
    requires limits.enabled
    ensures Inv(Start(symbols, limits))
  {
  }

  /** A check moves no position and no limit, and approves only a size within the limit. */
  lemma CheckEffect(st: Risk.RiskState, a: Action)
    requires a.Submit? && st.limits.enabled
    ensures var (st', verdict) := Risk.Check(st, a.symbol, a.order, a.currentPrice, a.windowNow, a.stampNow);
            && st'.limits == st.limits && st'.positions == st.positions
            && (verdict == Risk.Approved ==> 0 < a.order.qty <= st.limits.maxOrderQty)
  {
  }

  lemma SubmitKeepsInv(sys: Sys, a: Action)
    requires Inv(sys) && a.Submit? && Enabled(sys, a)
    ensures Inv(Do(sys, a))
  {
    hide WellFormed, Flow, Settled, TakenBy, Known, Risk.Check;
    CheckEffect(sys.risk, a);
    var sys' := Do(sys, a);
    forall s | s in sys'.books
      ensures BookOk(sys', s) && FlowOk(sys', s)
    {
      SumsConcat(sys.flights, [Checked(a.symbol, a.order)], s);
      assert BookOk(sys, s) && FlowOk(sys, s);
    }
    forall i | 0 <= i < |sys'.flights|
      ensures FlightOk(sys', sys'.flights[i])
    {
      if i < |sys.flights| {
        assert FlightOk(sys, sys.flights[i]);
      } else {
        assert forall s :: s in sys.books ==> BookOk(sys, s);
      }
    }
  }

  lemma CheckedMayEnter(sys: Sys, i: nat)
    requires Inv(sys) && i < |sys.flights| && sys.flights[i].Checked? && sys.flights[i].symbol in sys.books
    ensures BookOk(sys, sys.flights[i].symbol) && Incoming(sys.books[sys.flights[i].symbol], sys.flights[i].order)
  {
  }

  /** What entering does to the one book concerned. */
  lemma EnterBook(sys: Sys, i: nat)
    requires Inv(sys) && Enabled(sys, Enter(i)) && sys.flights[i].symbol in sys.books
    ensures var f := sys.flights[i];
            var r := Add(sys.books[f.symbol], f.order);
            && WellFormed(r.book) && r.book.symbol == f.symbol && Settled(r.book.log)
            && Known(r.book) == Known(sys.books[f.symbol]) + {f.order.id}
            && Flow(r.book.log) == Flow(sys.books[f.symbol].log) + Signed(f.order.side, Volume(r.trades))
            && 0 <= Volume(r.trades) <= f.order.qty
            && forall j :: 0 <= j < |r.trades| ==> TakenBy(r.trades[j], f.symbol, f.order)
  {
    var f := sys.flights[i];
    hide Inv, WellFormed, Incoming, Add, Flow, Settled, TakenBy, Known;
    CheckedMayEnter(sys, i);
    var b := sys.books[f.symbol];
    AddKeepsWellFormed(b, f.order);
    AddKnows(b, f.order);
    AddFlow(b, f.order);
    AddTradesTaken(b, f.order);
  }

  lemma EnterKeepsInv(sys: Sys, i: nat)
    requires Inv(sys) && Enabled(sys, Enter(i)) && sys.flights[i].symbol in sys.books
    ensures Inv(Do(sys, Enter(i)))
  {
    hide WellFormed, Flow, Settled, TakenBy, Add, Known;
    var sys' := Do(sys, Enter(i));
    var f, f' := sys.flights[i], sys'.flights[i];
    EnterBook(sys, i);
    assert FlightOk(sys, f);
    forall s | s in sys'.books
      ensures BookOk(sys', s) && FlowOk(sys', s)
    {
      SumsAt(sys.flights, i, f', s);
      UnreportedOne(f, s);
      UnreportedOne(f', s);
      assert BookOk(sys, s) && FlowOk(sys, s);
    }
    forall j | 0 <= j < |sys'.flights|
      ensures FlightOk(sys', sys'.flights[j])
    {
      assert FlightOk(sys, sys.flights[j]);
    }
  }

  lemma UnreportedOne(f: Flight, symbol: string)
    ensures Unreported([f], symbol) ==
              if f.symbol == symbol && f.Filling? then Signed(f.order.side, Volume(f.pending)) else 0
  {
  }

  /** A submitter with nothing to report leaves: after its last fill, or when its symbol has no book. */
  lemma DepartureKeepsInv(sys: Sys, i: nat)
    requires Inv(sys) && i < |sys.flights|
    requires sys.flights[i].Filling? ==> sys.flights[i].pending == []
    ensures Inv(sys.(flights := RemoveAt(sys.flights, i)))
  {
    hide WellFormed, Flow, Settled, TakenBy, Known;
    var sys' := sys.(flights := RemoveAt(sys.flights, i));
    forall s | s in sys'.books
      ensures BookOk(sys', s) && FlowOk(sys', s)
    {
      SumsAt(sys.flights, i, sys.flights[i], s);
      UnreportedOne(sys.flights[i], s);
      assert BookOk(sys, s) && FlowOk(sys, s);
    }
    forall j | 0 <= j < |sys'.flights|
      ensures sys'.flights[j] == sys.flights[if j < i then j else j + 1] && FlightOk(sys', sys'.flights[j])
    {
      assert FlightOk(sys, sys.flights[if j < i then j else j + 1]);
    }
  }

  /** The recovered side is the side that was submitted, so the report moves the position that way. */
  lemma ReportMoves(sys: Sys, i: nat)
    requires Inv(sys) && Enabled(sys, ReportFill(i))
    ensures var f := sys.flights[i];
            var t := f.pending[0];
            && TakenBy(t, f.symbol, f.order) && FillSide(t, f.order) == f.order.side && t.qty > 0
            && Volume(f.pending) == t.qty + Volume(f.pending[1..]) && Volume(f.pending[1..]) >= 0
            && forall s ::
                 NetOf(Do(sys, ReportFill(i)), s) ==
                 NetOf(sys, s) + if s == f.symbol then Signed(f.order.side, t.qty) else 0
  {
    var f := sys.flights[i];
    var t := f.pending[0];
    assert FlightOk(sys, f) && TakenBy(t, f.symbol, f.order);
    hide Risk.WithFill, Inv;
    var px := Risk.FromPrice(t.price);
    Risk.FillMovesNet(Risk.PositionOf(sys.risk.positions, f.symbol), f.order.side, t.qty, px);
    VolumeNotNegative(f.pending[1..], f.symbol, f.order);
  }

  lemma {:induction false} VolumeNotNegative(ts: seq<Trade>, symbol: string, o: OrderRec)
    requires forall j :: 0 <= j < |ts| ==> TakenBy(ts[j], symbol, o)
    ensures Volume(ts) >= 0
  {
    if ts != [] {
      VolumeNotNegative(ts[1..], symbol, o);
    }
  }

  lemma ReportKeepsInv(sys: Sys, i: nat)
    requires Inv(sys) && Enabled(sys, ReportFill(i))
    ensures Inv(Do(sys, ReportFill(i)))
  {
    hide WellFormed, Flow, Settled, TakenBy, Known, Risk.WithFill, NetOf;
    var sys' := Do(sys, ReportFill(i));
    var f, f' := sys.flights[i], sys'.flights[i];
    ReportMoves(sys, i);
    assert FlightOk(sys, f);
    forall s | s in sys'.books
      ensures BookOk(sys', s) && FlowOk(sys', s)
    {
      SumsAt(sys.flights, i, f', s);
      UnreportedOne(f, s);
      UnreportedOne(f', s);
      assert BookOk(sys, s) && FlowOk(sys, s);
    }
    forall j | 0 <= j < |f'.pending|
      ensures TakenBy(f'.pending[j], f'.symbol, f'.order)
    {
      assert f'.pending[j] == f.pending[j + 1];
    }
    forall j | 0 <= j < |sys'.flights|
      ensures FlightOk(sys', sys'.flights[j])
    {
      assert FlightOk(sys, sys.flights[j]);
    }
  }

  /** A change of one book that keeps it well formed and leaves its ids and its flow alone. */
  lemma BookChangeKeepsInv(sys: Sys, symbol: string, b: Book)
    requires Inv(sys) && symbol in sys.books && WellFormed(b) && b.symbol == symbol && Settled(b.log)
    requires Known(b) == Known(sys.books[symbol]) && Flow(b.log) == Flow(sys.books[symbol].log)
    ensures Inv(sys.(books := sys.books[symbol := b]))
  {
    hide WellFormed, Flow, Settled, TakenBy, Known;
    var sys' := sys.(books := sys.books[symbol := b]);
    forall s | s in sys'.books
      ensures BookOk(sys', s) && FlowOk(sys', s)
    {
      assert BookOk(sys, s) && FlowOk(sys, s);
    }
    forall j | 0 <= j < |sys'.flights|
      ensures FlightOk(sys', sys'.flights[j])
    {
      assert FlightOk(sys, sys.flights[j]);
    }
  }

  lemma MaintenanceKeepsInv(sys: Sys, a: Action)
    requires Inv(sys) && Enabled(sys, a) && (a.CancelOrder? || a.ModifyOrder?)
    ensures Inv(Do(sys, a))
  {
    hide WellFormed, Flow, Settled, Known, FlightOk;
    if a.symbol in sys.books {
      var b := sys.books[a.symbol];
      assert BookOk(sys, a.symbol);
      if a.CancelOrder? {
        CancelKeepsWellFormed(b, a.id);
        CancelKnows(b, a.id);
        CancelFlow(b, a.id);
        BookChangeKeepsInv(sys, a.symbol, Cancel(b, a.id).0);
      } else {
        ModifyKeepsWellFormed(b, a.id, a.price, a.qty);
        ModifyKnows(b, a.id, a.price, a.qty);
        BookChangeKeepsInv(sys, a.symbol, Modify(b, a.id, a.price, a.qty).0);
      }
    }
  }

  lemma TickKeepsInv(sys: Sys, a: Action)
    requires Inv(sys) && a.Tick? && Enabled(sys, a)
    ensures Inv(Do(sys, a)) && forall s :: NetOf(Do(sys, a), s) == NetOf(sys, s)
  {
    hide WellFormed, Flow, Settled, TakenBy, Known;
    var sys' := Do(sys, a);
    forall s | s in sys'.books
      ensures BookOk(sys', s) && FlowOk(sys', s)
    {
      assert BookOk(sys, s) && FlowOk(sys, s);
    }
    forall j | 0 <= j < |sys'.flights|
      ensures FlightOk(sys', sys'.flights[j])
    {
      assert FlightOk(sys, sys.flights[j]);
    }
  }

  lemma StepKeepsInv(sys: Sys, a: Action)
    requires Inv(sys) && Enabled(sys, a)
    ensures Inv(Do(sys, a))
  {
    hide Inv;
    match a
    case Submit(_, _, _, _, _) => SubmitKeepsInv(sys, a);
    case Enter(i) =>
      if sys.flights[i].symbol in sys.books { EnterKeepsInv(sys, i); } else { DepartureKeepsInv(sys, i); }
    case ReportFill(i) => ReportKeepsInv(sys, i);
    case Exit(i) => DepartureKeepsInv(sys, i);
    case CancelOrder(_, _) => MaintenanceKeepsInv(sys, a);
    case ModifyOrder(_, _, _, _) => MaintenanceKeepsInv(sys, a);
    case Tick(_, _) => TickKeepsInv(sys, a);
  }

  // ---------------------------------------------------------------- the position bound

  ghost function Slack(sys: Sys, k: nat): int {
    sys.risk.limits.maxPosition + (k - 1) * sys.risk.limits.maxOrderQty
  }

  /** Even if everything in flight on one side trades in full, the position stays within the bound. */
  ghost predicate Bounded(sys: Sys, symbol: string, k: nat) {
    && NetOf(sys, symbol) + AllOwed(sys.flights, symbol, Buy) <= Slack(sys, k)
    && -NetOf(sys, symbol) + AllOwed(sys.flights, symbol, Sell) <= Slack(sys, k)
  }

  lemma {:induction false} OwedIsLimited(fs: seq<Flight>, symbol: string, side: Side, max: int)
    requires max >= 0
    requires forall i :: 0 <= i < |fs| ==> 0 <= Owed(fs[i], symbol, side) <= max
    ensures 0 <= AllOwed(fs, symbol, side) <= InFlight(fs, symbol) * max
  {
    if fs != [] {
      OwedIsLimited(fs[1..], symbol, side, max);
      if fs[0].symbol == symbol {
        Distribute(InFlight(fs[1..], symbol), max);
      }
    }
  }

  lemma Distribute(n: nat, max: int)
    ensures (n + 1) * max == n * max + max
  {
  }

  lemma Monotone(m: nat, n: nat, max: int)
    requires m <= n && max >= 0
    ensures m * max <= n * max
  {
  }

  lemma OwedBounds(sys: Sys, symbol: string, side: Side)
    requires Inv(sys)
    ensures 0 <= AllOwed(sys.flights, symbol, side)
    ensures sys.risk.limits.maxOrderQty >= 0 ==>
              AllOwed(sys.flights, symbol, side) <= InFlight(sys.flights, symbol) * sys.risk.limits.maxOrderQty
  {
    hide WellFormed, Flow, Settled, TakenBy, Known, InFlight, AllOwed;
    var max := if sys.risk.limits.maxOrderQty >= 0 then sys.risk.limits.maxOrderQty else 0;
    forall i | 0 <= i < |sys.flights|
      ensures 0 <= Owed(sys.flights[i], symbol, side) <= max
    {
      assert FlightOk(sys, sys.flights[i]);
    }
    OwedIsLimited(sys.flights, symbol, side, max);
  }

  lemma ApprovalMeans(sys: Sys, a: Action)
    requires Inv(sys) && a.Submit? && Enabled(sys, a) && Do(sys, a).flights != sys.flights
    ensures 0 < a.order.qty <= sys.risk.limits.maxOrderQty
    ensures Abs(NetOf(sys, a.symbol) + Signed(a.order.side, a.order.qty)) <= sys.risk.limits.maxPosition
  {
  }

  /** A new approval: the check saw the position but none of the others in flight, at most k - 1. */
  lemma SubmitKeepsBound(sys: Sys, a: Action, symbol: string, k: nat)
    requires Inv(sys) && a.Submit? && Enabled(sys, a) && Bounded(sys, symbol, k)
    requires InFlight(Do(sys, a).flights, symbol) <= k
    ensures Bounded(Do(sys, a), symbol, k)
  {
    hide Inv, InFlight, AllOwed;
    var sys' := Do(sys, a);
    var max := sys.risk.limits.maxOrderQty;
    var f := Checked(a.symbol, a.order);
    OwedBounds(sys, symbol, a.order.side);
    SumsConcat(sys.flights, [f], symbol);
    SumsOfOne(f, symbol);
    if sys'.flights != sys.flights && a.symbol == symbol {
      ApprovalMeans(sys, a);
      Monotone(InFlight(sys.flights, symbol), k - 1, max);
    }
  }

  lemma OthersKeepBound(sys: Sys, a: Action, symbol: string, k: nat)
    requires Inv(sys) && !a.Submit? && Enabled(sys, a) && Bounded(sys, symbol, k)
    ensures Bounded(Do(sys, a), symbol, k)
  {
    hide Inv, InFlight, AllOwed, Known, WellFormed, Risk.WithFill, Add;
    match a
    case Enter(i) =>
      var f := sys.flights[i];
      FlightHolds(sys, i);
      SumsAt(sys.flights, i, if f.symbol in sys.books then Do(sys, a).flights[i] else f, symbol);
      if f.symbol in sys.books { EnterBook(sys, i); }
    case ReportFill(i) =>
      ReportMoves(sys, i);
      SumsAt(sys.flights, i, Do(sys, a).flights[i], symbol);
    case Exit(i) => SumsAt(sys.flights, i, sys.flights[i], symbol);
    case CancelOrder(_, _) =>
    case ModifyOrder(_, _, _, _) =>
    case Tick(_, _) => TickKeepsInv(sys, a);
  }

  lemma FlightHolds(sys: Sys, i: nat)
    requires Inv(sys) && i < |sys.flights|
    ensures sys.flights[i].order.qty > 0
  {
  }

  ghost predicate LegalActions(sys: Sys, actions: seq<Action>)
    decreases |actions|
  {
    actions != [] ==> Enabled(sys, actions[0]) && LegalActions(Do(sys, actions[0]), actions[1..])
  }

  function DoAll(sys: Sys, actions: seq<Action>): Sys
    requires LegalActions(sys, actions)
    decreases |actions|
  {
    if actions == [] then sys else DoAll(Do(sys, actions[0]), actions[1..])
  }

  /** At no point are more than k submitters in flight for the symbol. */
  ghost predicate AtMostInFlight(sys: Sys, actions: seq<Action>, symbol: string, k: nat)
    requires LegalActions(sys, actions)
    decreases |actions|
  {
    && InFlight(sys.flights, symbol) <= k
    && (actions != [] ==> AtMostInFlight(Do(sys, actions[0]), actions[1..], symbol, k))
  }

  // ---------------------------------------------------------------- stretches of a run

  /** The actions lead from one state to the other, never with more than k in flight for the symbol. */
  ghost predicate Leads(symbol: string, sys: Sys, actions: seq<Action>, sys': Sys, k: nat) {
    LegalActions(sys, actions) && AtMostInFlight(sys, actions, symbol, k) && DoAll(sys, actions) == sys'
  }

  lemma LeadsNowhere(symbol: string, sys: Sys, k: nat)
    requires InFlight(sys.flights, symbol) <= k
    ensures Leads(symbol, sys, [], sys, k)
  {
  }

  lemma {:induction false} LeadsOn(symbol: string, sys: Sys, a: seq<Action>, sys': Sys, c: seq<Action>, sys'': Sys,
                                   k: nat)
    requires Leads(symbol, sys, a, sys', k) && Leads(symbol, sys', c, sys'', k)
    ensures Leads(symbol, sys, a + c, sys'', k)
    decreases |a|
  {
    hide Do, Enabled, InFlight;
    if a == [] {
      assert a + c == c;
    } else {
      assert (a + c)[0] == a[0] && (a + c)[1..] == a[1..] + c;
      LeadsOn(symbol, Do(sys, a[0]), a[1..], sys', c, sys'', k);
    }
  }

  lemma OneLeads(symbol: string, sys: Sys, a: Action, k: nat)
    requires Enabled(sys, a) && InFlight(sys.flights, symbol) <= k && InFlight(Do(sys, a).flights, symbol) <= k
    ensures Leads(symbol, sys, [a], Do(sys, a), k)
  {
    assert [a][1..] == [];
  }

  lemma {:induction false} RunsStayBounded(sys: Sys, actions: seq<Action>, symbol: string, k: nat)
    requires LegalActions(sys, actions) && AtMostInFlight(sys, actions, symbol, k)
    requires Inv(sys) && Bounded(sys, symbol, k)
    ensures Inv(DoAll(sys, actions)) && Bounded(DoAll(sys, actions), symbol, k)
    ensures DoAll(sys, actions).risk.limits == sys.risk.limits
    decreases |actions|
  {
    hide Inv, Bounded, InFlight;
    if actions != [] {
      var a := actions[0];
      StepKeepsInv(sys, a);
      AtMostNow(Do(sys, a), actions[1..], symbol, k);
      if a.Submit? { SubmitKeepsBound(sys, a, symbol, k); } else { OthersKeepBound(sys, a, symbol, k); }
      RunsStayBounded(Do(sys, a), actions[1..], symbol, k);
    }
  }

  lemma AtMostNow(sys: Sys, actions: seq<Action>, symbol: string, k: nat)
    requires LegalActions(sys, actions) && AtMostInFlight(sys, actions, symbol, k)
    ensures InFlight(sys.flights, symbol) <= k
  {
  }

  /** With at most k submitters in flight, the tracked position never leaves
      max_position + (k - 1) * max_order_qty; one at a time, it never leaves max_position. */
  lemma PositionStaysBounded(symbols: set<string>, limits: Risk.RiskLimits, actions: seq<Action>, symbol: string,
                             k: nat)
    requires limits.enabled && limits.maxPosition >= 0 && limits.maxOrderQty >= 0 && k >= 1
    requires LegalActions(Start(symbols, limits), actions)
    requires AtMostInFlight(Start(symbols, limits), actions, symbol, k)
    ensures Abs(NetOf(DoAll(Start(symbols, limits), actions), symbol)) <= limits.maxPosition
              + (k - 1) * limits.maxOrderQty
  {
    var start := Start(symbols, limits);
    StartInv(symbols, limits);
    Monotone(0, k - 1, limits.maxOrderQty);
    RunsStayBounded(start, actions, symbol, k);
    OwedBounds(DoAll(start, actions), symbol, Buy);
    OwedBounds(DoAll(start, actions), symbol, Sell);
  }

  lemma {:induction false} RunsKeepInv(sys: Sys, actions: seq<Action>)
    requires LegalActions(sys, actions) && Inv(sys)
    ensures Inv(DoAll(sys, actions))
    decreases |actions|
  {
    hide Inv;
    if actions != [] {
      StepKeepsInv(sys, actions[0]);
      RunsKeepInv(Do(sys, actions[0]), actions[1..]);
    }
  }

  /** Whenever nobody is in the middle of reporting, the tracked position of a listed symbol is
      incoming-buy less incoming-sell volume over its book's trades. */
  lemma PositionEqualsTape(symbols: set<string>, limits: Risk.RiskLimits, actions: seq<Action>, symbol: string)
    requires limits.enabled && LegalActions(Start(symbols, limits), actions)
    requires var sys := DoAll(Start(symbols, limits), actions); symbol in sys.books && LockFree(sys)
    ensures var sys := DoAll(Start(symbols, limits), actions); NetOf(sys, symbol) == Flow(sys.books[symbol].log)
  {
    hide Flow, NetOf, DoAll, LegalActions, BookOk, FlightOk;
    StartInv(symbols, limits);
    RunsKeepInv(Start(symbols, limits), actions);
    var sys := DoAll(Start(symbols, limits), actions);
    assert FlowOk(sys, symbol);
    NothingUnreported(sys.flights, symbol);
  }

  lemma {:induction false} NothingUnreported(fs: seq<Flight>, symbol: string)
    requires forall i :: 0 <= i < |fs| ==> fs[i].Checked?
    ensures Unreported(fs, symbol) == 0
  {
    if fs != [] {
      NothingUnreported(fs[1..], symbol);
    }
  }
}
