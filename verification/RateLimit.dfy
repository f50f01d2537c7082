/** The sliding-window rate limit is exact, for any history with a clock that never runs backwards. */
module RateLimit {
  import opened Types
  import opened Risk
  import opened RiskTheorems

  /** The stamps of the approvals a history produces, in order. */
  function Approvals(st: RiskState, ops: seq<RiskOp>): seq<int>
    decreases |ops|
  {
    if ops == [] then [] else NewApproval(st, ops[0]) + Approvals(RiskStep(st, ops[0]), ops[1..])
  }

  function NewApproval(st: RiskState, op: RiskOp): seq<int> {
    if op.CheckOp? && Check(st, op.symbol, op.order, op.currentPrice, op.windowNow, op.stampNow).1 == Approved
    then [op.stampNow] else []
  }

  /** Both clock readings of every check, in the order they are taken. */
  ghost predicate Clocked(ops: seq<RiskOp>, last: int)
    decreases |ops|
  {
    ops != [] ==>
      if ops[0].CheckOp?
      then last <= ops[0].windowNow <= ops[0].stampNow && Clocked(ops[1..], ops[0].stampNow)
      else Clocked(ops[1..], last)
  }

  /** How many stamps lie in the closed interval [lo, hi]. */
  ghost function CountIn(h: seq<int>, lo: int, hi: int): nat {
    if h == [] then 0
    else CountIn(h[..|h| - 1], lo, hi) + (if lo <= h[|h| - 1] <= hi then 1 else 0)
  }

  lemma CountAppend(h: seq<int>, t: int, lo: int, hi: int)
    ensures CountIn(h + [t], lo, hi) == CountIn(h, lo, hi) + (if lo <= t <= hi then 1 else 0)
  {
  }

  lemma {:induction false} CountNarrower(h: seq<int>, lo: int, hi: int, lo': int, hi': int)
    requires lo <= lo' && forall i :: 0 <= i < |h| ==> h[i] <= hi
    ensures CountIn(h, lo', hi') <= CountIn(h, lo, hi)
  {
    if h != [] {
      CountNarrower(h[..|h| - 1], lo, hi, lo', hi');
    }
  }

  /** When the first n stamps are too old and the others are not, the count is the others. */
  lemma {:induction false} CountSuffix(h: seq<int>, n: nat, lo: int, hi: int)
    requires n <= |h|
    requires forall i :: 0 <= i < n ==> h[i] < lo
    requires forall i :: n <= i < |h| ==> lo <= h[i] <= hi
    ensures CountIn(h, lo, hi) == |h| - n
  {
    if h != [] {
      CountSuffix(h[..|h| - 1], if n < |h| then n else n - 1, lo, hi);
    }
  }

  /** The deque holds the tail of all approvals; what it dropped is out of every later window. */
  ghost predicate Tracks(stamps: seq<int>, h: seq<int>, last: int) {
    && |stamps| <= |h| && stamps == h[|h| - |stamps|..]
    && (forall i, j :: 0 <= i < j < |h| ==> h[i] <= h[j])
    && (forall i :: 0 <= i < |h| ==> h[i] <= last)
    && (forall i :: 0 <= i < |h| - |stamps| ==> h[i] < last - WINDOW_NS)
  }

  lemma {:induction false} PopKeepsTail(stamps: seq<int>, h: seq<int>, last: int, now: int)
    requires Tracks(stamps, h, last) && last <= now
    ensures var recent := PopOld(stamps, now - WINDOW_NS);
            Tracks(recent, h, now) && forall i :: 0 <= i < |recent| ==> recent[i] >= now - WINDOW_NS
    decreases |stamps|
  {
    if stamps != [] && stamps[0] < now - WINDOW_NS {
      assert stamps[0] == h[|h| - |stamps|];
      PopKeepsTail(stamps[1..], h, now, now);
    }
  }

  /** The deque's size after popping is exactly the number of approvals in the last second. */
  lemma RateIsWindowCount(stamps: seq<int>, h: seq<int>, last: int, now: int)
    requires Tracks(stamps, h, last) && last <= now
    ensures |PopOld(stamps, now - WINDOW_NS)| == CountIn(h, now - WINDOW_NS, now)
  {
    PopKeepsTail(stamps, h, last, now);
    var recent := PopOld(stamps, now - WINDOW_NS);
    var n := |h| - |recent|;
    forall i | n <= i < |h|
      ensures h[i] >= now - WINDOW_NS
    {
      assert h[i] == recent[i - n];
    }
    CountSuffix(h, n, now - WINDOW_NS, now);
  }

  ghost predicate WithinRate(h: seq<int>, max: int) {
    forall lo, hi :: hi <= lo + WINDOW_NS ==> CountIn(h, lo, hi) <= max
  }

  /** One check: tracking continues, and the rate verdict is decided by the number of approvals in the
      closed second before the check. */
  lemma CheckRate(st: RiskState, op: RiskOp, h: seq<int>, last: int)
    requires op.CheckOp? && st.limits.enabled
    requires Tracks(st.stamps, h, last) && last <= op.windowNow <= op.stampNow
    ensures Tracks(RiskStep(st, op).stamps, h + NewApproval(st, op), op.stampNow)
    ensures Check(st, op.symbol, op.order, op.currentPrice, op.windowNow, op.stampNow).1 == MaxOrderRate <==>
              && EarlyVerdict(st, op.symbol, op.order, op.currentPrice) == Approved
              && CountIn(h, op.windowNow - WINDOW_NS, op.windowNow) >= st.limits.maxOrdersPerSec
    ensures NewApproval(st, op) != [] ==> CountIn(h, op.windowNow - WINDOW_NS, op.windowNow) < st.limits.maxOrdersPerSec
  {
    hide EarlyVerdict, CountIn;
    PopKeepsTail(st.stamps, h, last, op.windowNow);
    RateIsWindowCount(st.stamps, h, last, op.windowNow);
    EarlyIsNotRate(st, op.symbol, op.order, op.currentPrice);
    assert h + [] == h;
  }

  /** So a check keeps every closed second within the limit. */
  lemma CheckKeepsRate(st: RiskState, op: RiskOp, h: seq<int>, last: int)
    requires op.CheckOp? && st.limits.enabled
    requires Tracks(st.stamps, h, last) && last <= op.windowNow <= op.stampNow
    requires WithinRate(h, st.limits.maxOrdersPerSec)
    ensures WithinRate(h + NewApproval(st, op), st.limits.maxOrdersPerSec)
  {
    hide Check, CountIn;
    var now, max := op.windowNow, st.limits.maxOrdersPerSec;
    CheckRate(st, op, h, last);
    if NewApproval(st, op) == [] {
      assert h + [] == h;
    } else {
      forall lo, hi | hi <= lo + WINDOW_NS
        ensures CountIn(h + [op.stampNow], lo, hi) <= max
      {
        CountAppend(h, op.stampNow, lo, hi);
        if lo <= op.stampNow <= hi {
          CountNarrower(h, now - WINDOW_NS, now, lo, hi);
        }
      }
    }
  }

  lemma EarlyIsNotRate(st: RiskState, symbol: string, o: OrderRec, currentPrice: real)
    ensures EarlyVerdict(st, symbol, o, currentPrice) != MaxOrderRate
  {
  }

  /** The last clock reading a history has taken. */
  function LastClock(ops: seq<RiskOp>, last: int): int {
    if ops == [] then last else LastClock(ops[1..], ClockAfter(ops[0], last))
  }

  function ClockAfter(op: RiskOp, last: int): int {
    if op.CheckOp? then op.stampNow else last
  }

  /** Over whole histories: the deque holds the tail of all approvals, and if no closed second held more
      of them than the limit before, none does afterwards. */
  lemma {:induction false} HistoryTracks(st: RiskState, ops: seq<RiskOp>, h: seq<int>, last: int)
    requires st.limits.enabled && Clocked(ops, last) && Tracks(st.stamps, h, last)
    ensures Tracks(RiskRun(st, ops).stamps, h + Approvals(st, ops), LastClock(ops, last))
    ensures WithinRate(h, st.limits.maxOrdersPerSec) ==> WithinRate(h + Approvals(st, ops), st.limits.maxOrdersPerSec)
    ensures RiskRun(st, ops).limits == st.limits
    decreases |ops|
  {
    hide Tracks, WithinRate, NewApproval, RiskStep;
    if ops == [] {
      assert h + [] == h;
    } else {
      var h' := h + NewApproval(st, ops[0]);
      if ops[0].CheckOp? {
        CheckRate(st, ops[0], h, last);
        if WithinRate(h, st.limits.maxOrdersPerSec) {
          CheckKeepsRate(st, ops[0], h, last);
        }
      } else {
        OtherOpsLeaveStamps(st, ops[0]);
        assert h' == h;
      }
      StepsKeepLimits(st, ops[0]);
      HistoryTracks(RiskStep(st, ops[0]), ops[1..], h', ClockAfter(ops[0], last));
      assert h' + Approvals(RiskStep(st, ops[0]), ops[1..]) == h + Approvals(st, ops);
    }
  }

  lemma StepsKeepLimits(st: RiskState, op: RiskOp)
    ensures RiskStep(st, op).limits == st.limits
  {
  }

  lemma OtherOpsLeaveStamps(st: RiskState, op: RiskOp)
    requires !op.CheckOp?
    ensures RiskStep(st, op).stamps == st.stamps && NewApproval(st, op) == []
  {
  }

  /** From a new manager, whatever happened: its deque tracks all approvals made so far. */
  lemma FreshTracks(limits: RiskLimits, ops: seq<RiskOp>, start: int)
    requires limits.enabled && Clocked(ops, start)
    ensures Tracks(RiskRun(Fresh(limits), ops).stamps, Approvals(Fresh(limits), ops), LastClock(ops, start))
    ensures limits.maxOrdersPerSec >= 0 ==> WithinRate(Approvals(Fresh(limits), ops), limits.maxOrdersPerSec)
    ensures RiskRun(Fresh(limits), ops).limits == limits
  {
    HistoryTracks(Fresh(limits), ops, [], start);
    assert [] + Approvals(Fresh(limits), ops) == Approvals(Fresh(limits), ops);
  }

  /** Over every history no closed second ever holds more approvals than the limit. */
  lemma RateLimitHolds(limits: RiskLimits, ops: seq<RiskOp>, start: int)
    requires limits.enabled && limits.maxOrdersPerSec >= 0 && Clocked(ops, start)
    ensures forall lo, hi :: hi <= lo + 1_000_000_000 ==>
              CountIn(Approvals(Fresh(limits), ops), lo, hi) <= limits.maxOrdersPerSec
  {
    FreshTracks(limits, ops, start);
  }

  /** After any history: the next check is rejected for its rate if and only if every other check passes
      and at least as many approvals as allowed lie in the closed second before it. */
  lemma RateVerdictIsExact(limits: RiskLimits, ops: seq<RiskOp>, start: int, next: RiskOp)
    requires limits.enabled && Clocked(ops, start)
    requires next.CheckOp? && LastClock(ops, start) <= next.windowNow <= next.stampNow
    ensures var st := RiskRun(Fresh(limits), ops);
            Check(st, next.symbol, next.order, next.currentPrice, next.windowNow, next.stampNow).1 == MaxOrderRate <==>
              && EarlyVerdict(st, next.symbol, next.order, next.currentPrice) == Approved
              && CountIn(Approvals(Fresh(limits), ops), next.windowNow - 1_000_000_000, next.windowNow)
                 >= limits.maxOrdersPerSec
  {
    hide Tracks, WithinRate, EarlyVerdict, Check, Approvals, CountIn;
    FreshTracks(limits, ops, start);
    CheckRate(RiskRun(Fresh(limits), ops), next, Approvals(Fresh(limits), ops), LastClock(ops, start));
  }
}
