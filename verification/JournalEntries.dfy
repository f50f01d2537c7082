/**
 What the journal's public writers write: fixed layouts of 64-bit integers, single bytes and
 zero-terminated text. Every such journal is read back in full, and it determines what was written.
 */
module JournalEntries {
  import opened Types
  import opened Bytes
  import opened Journal

  datatype OrderFields = OrderFields(
    id: int, price: int, qty: int, timestamp: int, side: byte, typ: byte, status: byte,
    symbol: seq<byte>, clientId: seq<byte>)

  datatype TradeFields = TradeFields(
    tradeId: int, buyId: int, sellId: int, price: int, qty: int, timestamp: int, symbol: seq<byte>)

  datatype TickFields = TickFields(
    timestamp: int, bidPrice: int, bidQty: int, askPrice: int, askQty: int, lastPrice: int, lastQty: int,
    symbol: seq<byte>)

  /** One call of a public writer. An order is written as new, cancelled or modified. */
  datatype Entry =
    | OrderEntry(what: byte, order: OrderFields)
    | TradeEntry(trade: TradeFields)
    | TickEntry(tick: TickFields)
    | SessionStart(timestamp: int)
    | SessionEnd(timestamp: int)

  const TWO_64 := 0x1_0000_0000_0000_0000

  /** An integer as eight bytes, negative ones in two's complement. */
  function Word64(x: int): (bs: seq<byte>)
    ensures |bs| == 8
  {
    LowBytes(x % TWO_64, 8)
  }

  /** The text before its first zero byte. */
  function CString(s: seq<byte>): (t: seq<byte>)
    ensures |t| <= |s|
  {
    if s == [] || s[0] == 0 then [] else [s[0]] + CString(s[1..])
  }

  /** strncpy into a zeroed buffer that keeps its last byte. */
  function Text(s: seq<byte>, size: nat): (bs: seq<byte>)
    requires size > 0
    ensures |bs| == size
  {
    var t := Taken(CString(s), 0, size - 1);
    t + Zeros(size - |t|)
  }

  function TypeOf(e: Entry): byte {
    match e
    case OrderEntry(what, _) => what
    case TradeEntry(_) => 4
    case TickEntry(_) => 5
    case SessionStart(_) => 7
    case SessionEnd(_) => 8
  }

  /** The packed structs, field by field. */
  function FieldsOf(e: Entry): seq<seq<byte>> {
    match e
    case OrderEntry(_, o) =>
      [Word64(o.id), Word64(o.price), Word64(o.qty), Word64(o.timestamp), [o.side], [o.typ], [o.status],
       Text(o.symbol, 16), Text(o.clientId, 32)]
    case TradeEntry(t) =>
      [Word64(t.tradeId), Word64(t.buyId), Word64(t.sellId), Word64(t.price), Word64(t.qty), Word64(t.timestamp),
       Text(t.symbol, 16)]
    case TickEntry(k) =>
      [Word64(k.timestamp), Word64(k.bidPrice), Word64(k.bidQty), Word64(k.askPrice), Word64(k.askQty),
       Word64(k.lastPrice), Word64(k.lastQty), Text(k.symbol, 16)]
    case SessionStart(timestamp) => [Word64(timestamp)]
    case SessionEnd(timestamp) => [Word64(timestamp)]
  }

  function Flatten(fs: seq<seq<byte>>): seq<byte> {
    if fs == [] then [] else fs[0] + Flatten(fs[1..])
  }

  function RecordOf(e: Entry): Record {
    Record(TypeOf(e), Flatten(FieldsOf(e)))
  }

  function RecordsOf(es: seq<Entry>): (rs: seq<Record>)
    ensures |rs| == |es| && forall i :: 0 <= i < |es| ==> rs[i] == RecordOf(es[i])
  {
    seq(|es|, i requires 0 <= i < |es| => RecordOf(es[i]))
  }

  // ---------------------------------------------------------------- fields at their places

  function Offset(fs: seq<seq<byte>>, i: nat): nat
    requires i <= |fs|
  {
    if i == 0 then 0 else Offset(fs, i - 1) + |fs[i - 1]|
  }

  lemma {:induction false} RestAt(fs: seq<seq<byte>>, i: nat)
    requires i <= |fs|
    ensures Offset(fs, i) <= |Flatten(fs)| && Flatten(fs)[Offset(fs, i)..] == Flatten(fs[i..])
  {
    if i == 0 {
      assert fs[0..] == fs;
    } else {
      RestAt(fs, i - 1);
      assert fs[i - 1..][1..] == fs[i..];
      assert Flatten(fs[i - 1..]) == fs[i - 1] + Flatten(fs[i..]);
    }
  }

  lemma FieldAt(fs: seq<seq<byte>>, i: nat, at: nat, end: nat)
    requires i < |fs| && at == Offset(fs, i) && end == at + |fs[i]|
    ensures end <= |Flatten(fs)| && Flatten(fs)[at..end] == fs[i]
  {
    RestAt(fs, i);
    RestAt(fs, i + 1);
    assert fs[i..][1..] == fs[i + 1..];
    assert Flatten(fs[i..]) == fs[i] + Flatten(fs[i + 1..]);
    assert Flatten(fs)[at..end] == Flatten(fs)[at..][..end - at];
  }

  lemma WholeSize(fs: seq<seq<byte>>)
    ensures |Flatten(fs)| == Offset(fs, |fs|)
  {
    RestAt(fs, |fs|);
  }

  lemma {:induction false} ShortFields(fs: seq<seq<byte>>, i: nat)
    requires i <= |fs| && forall j :: 0 <= j < |fs| ==> |fs[j]| <= 32
    ensures Offset(fs, i) <= 32 * i
  {
    if i > 0 {
      ShortFields(fs, i - 1);
    }
  }

  /** No public writer comes near the reader's limit. */
  lemma RecordsAreSmall(e: Entry)
    ensures |RecordOf(e).payload| <= MAX_PAYLOAD
  {
    hide Word64, Text;
    WholeSize(FieldsOf(e));
    ShortFields(FieldsOf(e), |FieldsOf(e)|);
  }

  /** Every journal made by the public writers is read back record for record. */
  lemma EveryJournalIsReadBack(es: seq<Entry>, junk: bv32)
    ensures Parse(FrameAll(RecordsOf(es)), junk) == RecordsOf(es)
  {
    hide Parse, FrameAll, RecordOf;
    forall i | 0 <= i < |es|
      ensures |RecordsOf(es)[i].payload| <= MAX_PAYLOAD
    {
      RecordsAreSmall(es[i]);
    }
    RoundTripIff(RecordsOf(es), junk);
  }

  // ---------------------------------------------------------------- a reader of the fields

  function UnsignedAt(p: seq<byte>, at: nat): int
    requires at + 8 <= |p|
  {
    NumberAt(p, at, 8)
  }

  /** Two's complement: the upper half of the range stands for the negative numbers. */
  function SignedAt(p: seq<byte>, at: nat): int
    requires at + 8 <= |p|
  {
    var x := NumberAt(p, at, 8);
    if x < 0x8000_0000_0000_0000 then x else x - 0x1_0000_0000_0000_0000
  }

  function OrderIn(what: byte, p: seq<byte>): Entry
    requires |p| == 83
  {
    OrderEntry(what, OrderFields(UnsignedAt(p, 0), SignedAt(p, 8), SignedAt(p, 16), SignedAt(p, 24),
                                 p[32], p[33], p[34], CString(p[35..51]), CString(p[51..83])))
  }

  function TradeIn(p: seq<byte>): Entry
    requires |p| == 64
  {
    TradeEntry(TradeFields(UnsignedAt(p, 0), UnsignedAt(p, 8), UnsignedAt(p, 16), SignedAt(p, 24), SignedAt(p, 32),
                           SignedAt(p, 40), CString(p[48..64])))
  }

  function TickIn(p: seq<byte>): Entry
    requires |p| == 72
  {
    TickEntry(TickFields(SignedAt(p, 0), SignedAt(p, 8), SignedAt(p, 16), SignedAt(p, 24), SignedAt(p, 32),
                         SignedAt(p, 40), SignedAt(p, 48), CString(p[56..72])))
  }

  /** The call a record was written by, from its type byte and its payload. */
  function EntryIn(r: Record): Option<Entry> {
    if 1 <= r.typ <= 3 && |r.payload| == 83 then Some(OrderIn(r.typ, r.payload))
    else if r.typ == 4 && |r.payload| == 64 then Some(TradeIn(r.payload))
    else if r.typ == 5 && |r.payload| == 72 then Some(TickIn(r.payload))
    else if r.typ == 7 && |r.payload| == 8 then Some(SessionStart(SignedAt(r.payload, 0)))
    else if r.typ == 8 && |r.payload| == 8 then Some(SessionEnd(SignedAt(r.payload, 0)))
    else None
  }

  // ---------------------------------------------------------------- nothing is lost

  predicate Signed64(x: int) {
    -0x8000_0000_0000_0000 <= x < 0x8000_0000_0000_0000
  }

  predicate Unsigned64(x: int) {
    0 <= x < 0x1_0000_0000_0000_0000
  }

  /** Text that fits its buffer with the terminating zero. */
  predicate FitsText(s: seq<byte>, size: nat) {
    |s| < size && forall i :: 0 <= i < |s| ==> s[i] != 0
  }

  /** The integers have the program's widths and the texts fit. */
  predicate Representable(e: Entry) {
    match e
    case OrderEntry(what, o) =>
      && 1 <= what <= 3 && Unsigned64(o.id) && Signed64(o.price) && Signed64(o.qty) && Signed64(o.timestamp)
      && FitsText(o.symbol, 16) && FitsText(o.clientId, 32)
    case TradeEntry(t) =>
      && Unsigned64(t.tradeId) && Unsigned64(t.buyId) && Unsigned64(t.sellId)
      && Signed64(t.price) && Signed64(t.qty) && Signed64(t.timestamp) && FitsText(t.symbol, 16)
    case TickEntry(k) =>
      && Signed64(k.timestamp) && Signed64(k.bidPrice) && Signed64(k.bidQty) && Signed64(k.askPrice)
           && Signed64(k.askQty)
      && Signed64(k.lastPrice) && Signed64(k.lastQty) && FitsText(k.symbol, 16)
    case SessionStart(timestamp) => Signed64(timestamp)
    case SessionEnd(timestamp) => Signed64(timestamp)
  }

  lemma EightBytes()
    ensures Power256(8) == TWO_64
  {
    assert Power256(4) == 0x1_0000_0000;
  }

  lemma WordAt(p: seq<byte>, at: nat, x: int)
    requires at + 8 <= |p| && p[at..at + 8] == Word64(x)
    ensures UnsignedAt(p, at) == x % 0x1_0000_0000_0000_0000
    ensures Unsigned64(x) ==> UnsignedAt(p, at) == x
    ensures Signed64(x) ==> SignedAt(p, at) == x
  {
    hide LowBytes, ValueOf, Power256, NumberAt;
    EightBytes();
    SizeRoundTrip(x % TWO_64, 8);
    NumberIsValue(p, at, 8);
  }

  lemma {:induction false} NoZeroNoEnd(s: seq<byte>, n: nat)
    requires forall i :: 0 <= i < |s| ==> s[i] != 0
    ensures CString(s + Zeros(n)) == s
  {
    var z := s + Zeros(n);
    if s != [] {
      assert z[1..] == s[1..] + Zeros(n);
      NoZeroNoEnd(s[1..], n);
    }
  }

  lemma {:induction false} CStringHasNoZero(s: seq<byte>)
    ensures forall i :: 0 <= i < |CString(s)| ==> CString(s)[i] != 0
  {
    if s != [] {
      CStringHasNoZero(s[1..]);
    }
  }

  /** Reading the buffer up to its first zero gives the text back, as far as it fits. */
  lemma TextKeeps(s: seq<byte>, size: nat)
    requires size > 0
    ensures CString(Text(s, size)) == Taken(CString(s), 0, size - 1)
    ensures FitsText(s, size) ==> CString(Text(s, size)) == s
  {
    hide Zeros;
    CStringHasNoZero(s);
    NoZeroNoEnd(Taken(CString(s), 0, size - 1), size - |Taken(CString(s), 0, size - 1)|);
    if FitsText(s, size) {
      NoZeroNoEnd(s, 0);
      assert s + Zeros(0) == s;
    }
  }

  lemma OrderReadBack(what: byte, o: OrderFields)
    requires Representable(OrderEntry(what, o))
    ensures EntryIn(RecordOf(OrderEntry(what, o))) == Some(OrderEntry(what, o))
  {
    hide Word64, Text, CString, Flatten, Signed64, Unsigned64, FitsText, UnsignedAt, SignedAt;
    var fs := FieldsOf(OrderEntry(what, o));
    var p := Flatten(fs);
    WholeSize(fs);
    FieldAt(fs, 0, 0, 8);
    FieldAt(fs, 1, 8, 16);
    FieldAt(fs, 2, 16, 24);
    FieldAt(fs, 3, 24, 32);
    FieldAt(fs, 4, 32, 33);
    FieldAt(fs, 5, 33, 34);
    FieldAt(fs, 6, 34, 35);
    FieldAt(fs, 7, 35, 51);
    FieldAt(fs, 8, 51, 83);
    WordAt(p, 0, o.id);
    WordAt(p, 8, o.price);
    WordAt(p, 16, o.qty);
    WordAt(p, 24, o.timestamp);
    assert p[32] == p[32..33][0] && p[33] == p[33..34][0] && p[34] == p[34..35][0];
    TextKeeps(o.symbol, 16);
    TextKeeps(o.clientId, 32);
  }

  lemma TradeReadBack(t: TradeFields)
    requires Representable(TradeEntry(t))
    ensures EntryIn(RecordOf(TradeEntry(t))) == Some(TradeEntry(t))
  {
    hide Word64, Text, CString, Flatten, Signed64, Unsigned64, FitsText, UnsignedAt, SignedAt;
    var fs := FieldsOf(TradeEntry(t));
    var p := Flatten(fs);
    WholeSize(fs);
    FieldAt(fs, 0, 0, 8);
    FieldAt(fs, 1, 8, 16);
    FieldAt(fs, 2, 16, 24);
    FieldAt(fs, 3, 24, 32);
    FieldAt(fs, 4, 32, 40);
    FieldAt(fs, 5, 40, 48);
    FieldAt(fs, 6, 48, 64);
    WordAt(p, 0, t.tradeId);
    WordAt(p, 8, t.buyId);
    WordAt(p, 16, t.sellId);
    WordAt(p, 24, t.price);
    WordAt(p, 32, t.qty);
    WordAt(p, 40, t.timestamp);
    TextKeeps(t.symbol, 16);
  }

  lemma TickReadBack(k: TickFields)
    requires Representable(TickEntry(k))
    ensures EntryIn(RecordOf(TickEntry(k))) == Some(TickEntry(k))
  {
    hide Word64, Text, CString, Flatten, Signed64, Unsigned64, FitsText, UnsignedAt, SignedAt;
    var fs := FieldsOf(TickEntry(k));
    var p := Flatten(fs);
    WholeSize(fs);
    FieldAt(fs, 0, 0, 8);
    FieldAt(fs, 1, 8, 16);
    FieldAt(fs, 2, 16, 24);
    FieldAt(fs, 3, 24, 32);
    FieldAt(fs, 4, 32, 40);
    FieldAt(fs, 5, 40, 48);
    FieldAt(fs, 6, 48, 56);
    FieldAt(fs, 7, 56, 72);
    WordAt(p, 0, k.timestamp);
    WordAt(p, 8, k.bidPrice);
    WordAt(p, 16, k.bidQty);
    WordAt(p, 24, k.askPrice);
    WordAt(p, 32, k.askQty);
    WordAt(p, 40, k.lastPrice);
    WordAt(p, 48, k.lastQty);
    TextKeeps(k.symbol, 16);
  }

  lemma SessionReadBack(e: Entry)
    requires Representable(e) && (e.SessionStart? || e.SessionEnd?)
    ensures EntryIn(RecordOf(e)) == Some(e)
  {
    hide Word64, Flatten, SignedAt;
    WholeSize(FieldsOf(e));
    FieldAt(FieldsOf(e), 0, 0, 8);
    WordAt(Flatten(FieldsOf(e)), 0, e.timestamp);
  }

  /** Each record is read back as the call that wrote it. */
  lemma EntryReadBack(e: Entry)
    requires Representable(e)
    ensures EntryIn(RecordOf(e)) == Some(e)
  {
    hide EntryIn, RecordOf, Representable;
    match e
    case OrderEntry(w, o) => OrderReadBack(w, o);
    case TradeEntry(t) => TradeReadBack(t);
    case TickEntry(k) => TickReadBack(k);
    case SessionStart(_) => SessionReadBack(e);
    case SessionEnd(_) => SessionReadBack(e);
  }

  /** From the bytes of a journal the calls that made it come back, one for one and in order. */
  lemma JournalTellsCalls(es: seq<Entry>, junk: bv32)
    requires forall i :: 0 <= i < |es| ==> Representable(es[i])
    ensures var rs := Parse(FrameAll(RecordsOf(es)), junk);
            |rs| == |es| && forall i :: 0 <= i < |es| ==> EntryIn(rs[i]) == Some(es[i])
  {
    hide Parse, FrameAll, RecordOf, Representable, EntryIn;
    EveryJournalIsReadBack(es, junk);
    forall i | 0 <= i < |es|
      ensures EntryIn(RecordOf(es[i])) == Some(es[i])
    {
      EntryReadBack(es[i]);
    }
  }

  /** So no two different sessions leave the same bytes. */
  lemma JournalDeterminesCalls(es: seq<Entry>, es': seq<Entry>)
    requires forall i :: 0 <= i < |es| ==> Representable(es[i])
    requires forall i :: 0 <= i < |es'| ==> Representable(es'[i])
    requires FrameAll(RecordsOf(es)) == FrameAll(RecordsOf(es'))
    ensures es == es'
  {
    hide Parse, FrameAll, Representable, EntryIn;
    JournalTellsCalls(es, 0);
    JournalTellsCalls(es', 0);
  }

  /** The public writers: each fills in its struct and appends it as one record. */
  method WriteEntry(journal: BinaryJournal, e: Entry)
    modifies journal`written, journal`recordsWritten
    ensures journal.written == old(journal.written) + (if journal.writing then Frame(RecordOf(e)) else [])
    ensures journal.recordsWritten == old(journal.recordsWritten) + (if journal.writing then 1 else 0)
  {
    journal.WriteRecord(RecordOf(e));
  }
}
