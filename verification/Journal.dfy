/**
 The binary journal: records framed as type, little-endian size, payload and checksum, written to and
 read back from a byte stream (after its six-byte file header).
 */
module Journal {
  import opened Types
  import opened Bytes
  import opened Words
  import opened Crc

  /** The type is kept as the byte it is stored as; a reader takes any byte for it. */
  datatype Record = Record(typ: byte, payload: seq<byte>)

  const MAX_PAYLOAD := 0x10_0000

  /** The k low bytes of a number, lowest first; anything above them is cut off. */
  function LowBytes(n: nat, k: nat): (bs: seq<byte>)
    ensures |bs| == k
    decreases k
  {
    if k == 0 then [] else [ByteOf(n % 256)] + LowBytes(n / 256, k - 1)
  }

  function ValueOf(bs: seq<byte>): nat {
    if bs == [] then 0 else bs[0] as nat + 256 * ValueOf(bs[1..])
  }

  function CrcBytes(crc: bv32): (bs: seq<byte>)
    ensures |bs| == 4
  {
    [LowByte(crc), LowByte(crc >> 8), LowByte(crc >> 16), LowByte(crc >> 24)]
  }

  function Frame(r: Record): seq<byte> {
    [r.typ] + LowBytes(|r.payload|, 4) + r.payload + CrcBytes(Checksum(r.payload))
  }

  function FrameAll(rs: seq<Record>): seq<byte> {
    if rs == [] then [] else Frame(rs[0]) + FrameAll(rs[1..])
  }

  function Zeros(n: nat): (z: seq<byte>)
    ensures |z| == n
  {
    seq(n, _ => 0)
  }

  /** Up to n bytes of a stream from a position on: fewer if it ends before. */
  function Taken(s: seq<byte>, pos: nat, n: nat): (bytes: seq<byte>)
    requires pos <= |s|
    ensures |bytes| <= n && (pos + n <= |s| <==> |bytes| == n) && pos + |bytes| <= |s|
  {
    if pos + n <= |s| then s[pos..pos + n] else s[pos..]
  }

  /** The payload buffer after reading: what the stream had of it, the rest still zero. */
  function PayloadRead(body: seq<byte>, size: nat): (payload: seq<byte>)
    ensures |payload| == size
  {
    Taken(body, 0, size) + Zeros(size - |Taken(body, 0, size)|)
  }

  /** The checksum bytes the stream still had behind the payload. */
  function CrcRead(body: seq<byte>, size: nat): (got: seq<byte>)
    ensures |got| <= 4
  {
    if size <= |body| then Taken(body, size, 4) else []
  }

  /** The checksum variable: unset, except for the low bytes that were read into it. */
  function Overlay(got: seq<byte>, junk: bv32): (stored: seq<byte>)
    requires |got| <= 4
    ensures |stored| == 4
  {
    got + CrcBytes(junk)[|got|..]
  }

  /** What a reader makes of a stream; `junk` is what an unset checksum variable happens to hold. */
  function Parse(s: seq<byte>, junk: bv32): seq<Record>
    decreases |s|
  {
    if |s| < 5 || ValueOf(s[1..5]) > MAX_PAYLOAD then []
    else
      var size, body := ValueOf(s[1..5]), s[5..];
      var payload := PayloadRead(body, size);
      if Checksum(payload) != Word(Overlay(CrcRead(body, size), junk)) then []
      else [Record(s[0], payload)] + (if size + 4 <= |body| then Parse(body[size + 4..], junk) else [])
  }

  lemma ParseStops(s: seq<byte>, junk: bv32)
    ensures |s| < 5 || ValueOf(s[1..5]) > MAX_PAYLOAD ==> Parse(s, junk) == []
  {
  }

  // ---------------------------------------------------------------- fields survive

  function Power256(k: nat): nat {
    if k == 0 then 1 else 256 * Power256(k - 1)
  }

  lemma {:induction false} SizeRoundTrip(n: nat, k: nat)
    requires n < Power256(k)
    ensures ValueOf(LowBytes(n, k)) == n
    decreases k
  {
    if k > 0 {
      SizeRoundTrip(n / 256, k - 1);
    }
  }

  /** The number in n bytes from a place on, the byte in front counting least. */
  function NumberAt(p: seq<byte>, at: nat, n: nat): nat
    requires at + n <= |p|
    decreases n
  {
    if n == 0 then 0 else p[at] as nat + 0x100 * NumberAt(p, at + 1, n - 1)
  }

  lemma {:induction false} NumberIsValue(p: seq<byte>, at: nat, n: nat)
    requires at + n <= |p|
    ensures NumberAt(p, at, n) == ValueOf(p[at..at + n])
    decreases n
  {
    if n > 0 {
      NumberIsValue(p, at + 1, n - 1);
      assert p[at..at + n][1..] == p[at + 1..at + n];
    }
  }

  lemma WordOfFour(w: seq<byte>)
    requires |w| == 4
    ensures Word(w) == FourOf(w[0], w[1], w[2], w[3])
  {
    hide Stack;
    var w1, w2, w3 := w[1..], w[2..], w[3..];
    assert w1[1..] == w2 && w2[1..] == w3 && w3[1..] == [];
    assert Word(w3) == Stack(w[3], 0);
    assert Word(w1) == Stack(w[1], Stack(w[2], Word(w3)));
  }

  lemma CrcRoundTrip(crc: bv32)
    ensures Word(CrcBytes(crc)) == crc
  {
    hide Word, LowByte, FourOf;
    WordOfFour(CrcBytes(crc));
    TakenToBytes(crc);
  }

  // ---------------------------------------------------------------- writing and reading back

  /** Where the fields of a framed record lie in a stream. */
  lemma Fields(typ: byte, size: seq<byte>, payload: seq<byte>, crc: seq<byte>, tail: seq<byte>)
    requires |size| == |crc| == 4
    ensures var s, n := [typ] + size + payload + crc + tail, |payload|;
            && |s| == n + 9 + |tail| && s[0] == typ && s[1..5] == size
            && s[5..][..n] == payload && s[5..][n..n + 4] == crc && s[5..][n + 4..] == tail
  {
    var s, n := [typ] + size + payload + crc + tail, |payload|;
    var body := payload + crc + tail;
    assert s[5..] == body;
    assert body[..n] == payload;
    assert body[n..n + 4] == crc;
    assert body[n + 4..] == tail;
  }

  lemma FrameFields(r: Record, tail: seq<byte>)
    requires |r.payload| < Power256(4)
    ensures var s := Frame(r) + tail;
            var n := |r.payload|;
            && |s| == n + 9 + |tail| && s[0] == r.typ && ValueOf(s[1..5]) == n
            && s[5..][..n] == r.payload && Word(s[5..][n..n + 4]) == Checksum(r.payload) && s[5..][n + 4..] == tail
  {
    hide Checksum, Word, LowBytes, ValueOf, CrcBytes;
    SizeRoundTrip(|r.payload|, 4);
    CrcRoundTrip(Checksum(r.payload));
    Fields(r.typ, LowBytes(|r.payload|, 4), r.payload, CrcBytes(Checksum(r.payload)), tail);
  }

  /** A frame byte by byte: type, size and checksum with their low bytes in front, payload between. */
  lemma FrameLayout(r: Record)
    requires |r.payload| < 0x1_0000_0000
    ensures var f, n := Frame(r), |r.payload|;
            && |f| == n + 9 && f[0] == r.typ && NumberAt(f, 1, 4) == n && f[5..n + 5] == r.payload
            && FourOf(f[n + 5], f[n + 6], f[n + 7], f[n + 8]) == Checksum(r.payload)
  {
    hide Checksum, Frame, Word, LowBytes, ValueOf, CrcBytes, NumberAt, FourOf;
    var f, n := Frame(r), |r.payload|;
    FrameFields(r, []);
    assert f + [] == f;
    NumberIsValue(f, 1, 4);
    var crc := f[5..][n..n + 4];
    WordOfFour(crc);
    assert crc[0] == f[n + 5] && crc[1] == f[n + 6] && crc[2] == f[n + 7] && crc[3] == f[n + 8];
  }

  /** With payload and checksum complete, reading goes on behind them if the two match. */
  lemma ParseWhole(s: seq<byte>, junk: bv32)
    requires |s| >= 5 && ValueOf(s[1..5]) <= MAX_PAYLOAD && ValueOf(s[1..5]) + 4 <= |s[5..]|
    ensures var n, body := ValueOf(s[1..5]), s[5..];
            Parse(s, junk) == if Checksum(body[..n]) != Word(body[n..n + 4]) then []
                              else [Record(s[0], body[..n])] + Parse(body[n + 4..], junk)
  {
    hide Checksum, Word, ValueOf, CrcBytes;
    var n, body := ValueOf(s[1..5]), s[5..];
    assert Overlay(body[n..n + 4], junk) == body[n..n + 4];
    assert PayloadRead(body, n) == body[..n];
  }

  /** An intact record is read, and reading goes on behind it; an oversize one ends the reading. */
  lemma ParseFrame(r: Record, tail: seq<byte>, junk: bv32)
    requires |r.payload| < Power256(4)
    ensures Parse(Frame(r) + tail, junk) == if |r.payload| <= MAX_PAYLOAD then [r] + Parse(tail, junk) else []
  {
    hide Parse, Checksum, Word, Frame, ValueOf, Power256;
    FrameFields(r, tail);
    ParseStops(Frame(r) + tail, junk);
    if |r.payload| <= MAX_PAYLOAD {
      ParseWhole(Frame(r) + tail, junk);
    }
  }

  /** The records before the first one too large to be read back. */
  function Readable(rs: seq<Record>): seq<Record> {
    if rs == [] || |rs[0].payload| > MAX_PAYLOAD then [] else [rs[0]] + Readable(rs[1..])
  }

  lemma FirstFrame(rs: seq<Record>, tail: seq<byte>)
    requires rs != []
    ensures FrameAll(rs) + tail == Frame(rs[0]) + (FrameAll(rs[1..]) + tail)
  {
  }

  /** Whatever follows intact records of acceptable size is read where they end. */
  lemma {:induction false} ParseAfter(rs: seq<Record>, tail: seq<byte>, junk: bv32)
    requires forall i :: 0 <= i < |rs| ==> |rs[i].payload| <= MAX_PAYLOAD
    ensures Parse(FrameAll(rs) + tail, junk) == rs + Parse(tail, junk)
    decreases |rs|
  {
    hide Parse, Frame;
    if rs == [] {
      assert FrameAll(rs) + tail == tail;
    } else {
      FirstFrame(rs, tail);
      ParseFrame(rs[0], FrameAll(rs[1..]) + tail, junk);
      ParseAfter(rs[1..], tail, junk);
      assert rs == [rs[0]] + rs[1..];
    }
  }

  /** Everything written comes back, in order, up to the first payload above the reader's limit. */
  lemma {:induction false} WrittenIsRead(rs: seq<Record>, junk: bv32)
    requires forall i :: 0 <= i < |rs| ==> |rs[i].payload| < Power256(4)
    ensures Parse(FrameAll(rs), junk) == Readable(rs)
    decreases |rs|
  {
    hide Parse, Frame, Power256;
    if rs == [] {
      NothingToParse(junk);
    } else {
      ParseFrame(rs[0], FrameAll(rs[1..]), junk);
      WrittenIsRead(rs[1..], junk);
    }
  }

  lemma NothingToParse(junk: bv32)
    ensures Parse([], junk) == []
  {
  }

  lemma {:induction false} ParsedIsSmall(s: seq<byte>, junk: bv32)
    ensures forall i :: 0 <= i < |Parse(s, junk)| ==> |Parse(s, junk)[i].payload| <= MAX_PAYLOAD
    decreases |s|
  {
    hide Checksum, Word, Overlay;
    if |s| >= 5 && ValueOf(s[1..5]) <= MAX_PAYLOAD && |s[5..]| >= ValueOf(s[1..5]) + 4 {
      ParsedIsSmall(s[5..][ValueOf(s[1..5]) + 4..], junk);
    }
  }

  /** The round trip holds exactly when every payload is within the reader's limit. */
  lemma RoundTripIff(rs: seq<Record>, junk: bv32)
    ensures Parse(FrameAll(rs), junk) == rs <==> forall i :: 0 <= i < |rs| ==> |rs[i].payload| <= 0x10_0000
  {
    hide Parse, FrameAll;
    ParsedIsSmall(FrameAll(rs), junk);
    if forall i :: 0 <= i < |rs| ==> |rs[i].payload| <= MAX_PAYLOAD {
      ParseAfter(rs, [], junk);
      NothingToParse(junk);
      assert FrameAll(rs) + [] == FrameAll(rs);
    }
  }

  // ---------------------------------------------------------------- damage

  /** A record's frame with other bytes where its payload and its checksum were. */
  function DamagedFrame(r: Record, payload: seq<byte>, stored: seq<byte>): seq<byte> {
    [r.typ] + LowBytes(|r.payload|, 4) + payload + stored
  }

  /** Reading stops at a record whose checksum does not match its payload. */
  lemma MismatchStops(r: Record, payload: seq<byte>, stored: seq<byte>, tail: seq<byte>, junk: bv32)
    requires |payload| == |r.payload| < Power256(4) && |stored| == 4 && Word(stored) != Checksum(payload)
    ensures Parse(DamagedFrame(r, payload, stored) + tail, junk) == []
  {
    hide Parse, Checksum, Word, LowBytes, ValueOf;
    var s := DamagedFrame(r, payload, stored) + tail;
    SizeRoundTrip(|payload|, 4);
    Fields(r.typ, LowBytes(|payload|, 4), payload, stored, tail);
    ParseStops(s, junk);
    if |payload| <= MAX_PAYLOAD {
      ParseWhole(s, junk);
    }
  }

  /** If one record's payload and stored checksum are altered anywhere within 32 consecutive bits, in one
      of them or across the two, reading returns exactly the records before it, whatever follows. */
  lemma BurstStopsReading(rs: seq<Record>, r: Record, payload: seq<byte>, stored: seq<byte>, tail: seq<byte>,
                          junk: bv32)
    requires forall i :: 0 <= i < |rs| ==> |rs[i].payload| <= MAX_PAYLOAD
    requires |payload| == |r.payload| < Power256(4) && |stored| == 4
    requires Burst(r.payload + CrcBytes(Checksum(r.payload)), payload + stored)
    ensures Parse(FrameAll(rs) + (DamagedFrame(r, payload, stored) + tail), junk) == rs
  {
    hide Parse, DamagedFrame, FrameAll, Power256, Burst, Checksum, Word, CrcBytes;
    CrcRoundTrip(Checksum(r.payload));
    BurstNeverMatches(r.payload, CrcBytes(Checksum(r.payload)), payload, stored);
    MismatchStops(r, payload, stored, tail, junk);
    ParseAfter(rs, DamagedFrame(r, payload, stored) + tail, junk);
    assert rs + [] == rs;
  }

  /** The checksum covers the payload only: a record whose type byte is altered is read back with the
      other type, and reading goes on behind it. */
  lemma DamagedTypeIsRead(rs: seq<Record>, r: Record, typ: byte, tail: seq<byte>, junk: bv32)
    requires forall i :: 0 <= i < |rs| ==> |rs[i].payload| <= MAX_PAYLOAD
    requires |r.payload| <= MAX_PAYLOAD
    ensures Parse(FrameAll(rs) + (Frame(r)[0 := typ] + tail), junk) == rs + [r.(typ := typ)] + Parse(tail, junk)
  {
    hide Parse, FrameAll, Checksum, LowBytes, CrcBytes;
    assert Frame(r)[0 := typ] == Frame(r.(typ := typ));
    ParseFrame(r.(typ := typ), tail, junk);
    ParseAfter(rs, Frame(r)[0 := typ] + tail, junk);
  }

  /** What a reader makes of a record cut short: nothing before its size is complete; within its payload,
      a zero-padded record only if that happens to have the checksum that the unset variable holds;
      within its checksum, the record itself exactly if the variable happens to hold the missing bytes. */
  function CutRecord(r: Record, cut: nat, junk: bv32): seq<Record>
    requires cut < |r.payload| + 9
  {
    var n := |r.payload|;
    if cut < 5 then []
    else if cut < 5 + n then
      var padded := r.payload[..cut - 5] + Zeros(n - (cut - 5));
      if Checksum(padded) == junk then [Record(r.typ, padded)] else []
    else if CrcBytes(junk)[cut - 5 - n..] == CrcBytes(Checksum(r.payload))[cut - 5 - n..] then [r] else []
  }

  /** A file cut inside a record: the whole records before it are read, then the cut one as above. */
  lemma CutFileKeepsWholeRecords(rs: seq<Record>, r: Record, cut: nat, junk: bv32)
    requires forall i :: 0 <= i < |rs| ==> |rs[i].payload| <= MAX_PAYLOAD
    requires |r.payload| <= MAX_PAYLOAD && cut < |Frame(r)|
    ensures Parse(FrameAll(rs) + Frame(r)[..cut], junk) == rs + CutRecord(r, cut, junk)
  {
    hide FrameAll;
    ParseAfter(rs, Frame(r)[..cut], junk);
    CutFrame(r, cut, junk);
  }

  lemma CutFrame(r: Record, cut: nat, junk: bv32)
    requires |r.payload| <= MAX_PAYLOAD && cut < |Frame(r)|
    ensures Parse(Frame(r)[..cut], junk) == CutRecord(r, cut, junk)
  {
    hide Checksum, Word, CrcBytes, LowBytes, ValueOf, Zeros, Overlay;
    var n, crc := |r.payload|, CrcBytes(Checksum(r.payload));
    if cut >= 5 {
      SizeRoundTrip(n, 4);
      CutFields(r.typ, LowBytes(n, 4), r.payload, crc, cut);
      NothingRead(junk);
      if cut >= 5 + n {
        PartOfCrc(Checksum(r.payload), cut - 5 - n, junk);
      }
    }
  }

  /** What is left of the fields of a framed record cut behind its size. */
  lemma CutFields(typ: byte, size: seq<byte>, payload: seq<byte>, crc: seq<byte>, cut: nat)
    requires |size| == |crc| == 4 && 5 <= cut < |payload| + 9
    ensures var s, n := ([typ] + size + payload + crc)[..cut], |payload|;
            && |s| == cut && s[0] == typ && s[1..5] == size
            && PayloadRead(s[5..], n) == (if n <= cut - 5 then payload else payload[..cut - 5] + Zeros(n - (cut - 5)))
            && CrcRead(s[5..], n) == (if n <= cut - 5 then crc[..cut - 5 - n] else [])
  {
    hide Zeros, PayloadRead, CrcRead;
    var f := [typ] + size + payload + crc;
    assert f[1..5] == size && f[..cut][1..5] == f[1..5];
    assert f[..cut][5..] == (payload + crc)[..cut - 5];
    CutReads(payload, crc, cut - 5);
  }

  lemma CutReads(payload: seq<byte>, crc: seq<byte>, m: nat)
    requires |crc| == 4 && m < |payload| + 4
    ensures var t, n := (payload + crc)[..m], |payload|;
            && PayloadRead(t, n) == (if n <= m then payload else payload[..m] + Zeros(n - m))
            && CrcRead(t, n) == (if n <= m then crc[..m - n] else [])
  {
    var t, n := (payload + crc)[..m], |payload|;
    if n <= m {
      assert t[..n] == payload;
      assert t[n..] == crc[..m - n];
    } else {
      assert t == payload[..m];
    }
  }

  lemma NothingRead(junk: bv32)
    ensures Word(Overlay([], junk)) == junk
  {
    hide Word, CrcBytes;
    assert Overlay([], junk) == CrcBytes(junk);
    CrcRoundTrip(junk);
  }

  /** Some low bytes of a checksum over an unset variable give the checksum if and only if the variable
      holds the other bytes already. */
  lemma PartOfCrc(crc: bv32, k: nat, junk: bv32)
    requires k <= 4
    ensures Word(Overlay(CrcBytes(crc)[..k], junk)) == crc <==> CrcBytes(junk)[k..] == CrcBytes(crc)[k..]
  {
    hide Word, CrcBytes;
    var c, stored := CrcBytes(crc), Overlay(CrcBytes(crc)[..k], junk);
    CrcRoundTrip(crc);
    assert c == c[..k] + c[k..];
    assert stored[k..] == CrcBytes(junk)[k..];
    if Word(stored) == crc {
      WordInjective(stored, c);
    }
  }

  // ---------------------------------------------------------------- the journal object

  lemma SliceOfRest(s: seq<byte>, a: nat, k: nat)
    requires a + k <= |s|
    ensures s[a..][k..] == s[a + k..]
  {
  }

  lemma SizeField(s: seq<byte>, start: nat)
    requires start + 5 <= |s|
    ensures Taken(s, start, 1) == [s[start]] && Taken(s, start + 1, 4) == s[start..][1..5]
  {
  }

  lemma TakenFurther(s: seq<byte>, a: nat, k: nat, n: nat)
    requires a + k <= |s|
    ensures Taken(s[a..], k, n) == Taken(s, a + k, n)
  {
  }

  lemma PayloadReadAt(s: seq<byte>, a: nat, n: nat)
    requires a <= |s|
    ensures var read := Taken(s, a, n); PayloadRead(s[a..], n) == read + Zeros(n - |read|)
    ensures CrcRead(s[a..], n) == if a + n <= |s| then Taken(s, a + n, 4) else []
  {
    hide Taken;
    TakenFurther(s, a, 0, n);
    if a + n <= |s| {
      TakenFurther(s, a, n, 4);
    }
  }

  lemma ParseStep(s: seq<byte>, junk: bv32, n: nat, body: seq<byte>, payload: seq<byte>, got: seq<byte>)
    requires |s| >= 5 && n == ValueOf(s[1..5]) <= MAX_PAYLOAD && body == s[5..]
    requires payload == PayloadRead(body, n) && got == CrcRead(body, n)
    ensures Parse(s, junk) ==
              if Checksum(payload) != Word(Overlay(got, junk)) then []
              else [Record(s[0], payload)] + (if n + 4 <= |body| then Parse(body[n + 4..], junk) else [])
  {
    hide Checksum, Word, ValueOf, Overlay, PayloadRead, CrcRead;
  }

  /** What reading type, size, payload and checksum at a position, in that order, has to do with Parse. */
  lemma ReadInOrder(content: seq<byte>, start: nat, size: seq<byte>, read: seq<byte>, last: seq<byte>, junk: bv32)
    requires start + 5 <= |content| && size == Taken(content, start + 1, 4) && ValueOf(size) <= MAX_PAYLOAD
    requires read == Taken(content, start + 5, ValueOf(size))
    requires last == if |read| == ValueOf(size) then Taken(content, start + 5 + |read|, 4) else []
    ensures Parse(content[start..], junk) ==
              var payload := read + Zeros(ValueOf(size) - |read|);
              if Checksum(payload) != Word(Overlay(last, junk)) then []
              else [Record(content[start], payload)]
                   + (if |last| == 4 then Parse(content[start + 5 + |read| + 4..], junk) else [])
  {
    hide Parse, Checksum, Word, ValueOf, Overlay, Zeros, Taken, PayloadRead, CrcRead;
    var body, n := content[start + 5..], ValueOf(size);
    SizeField(content, start);
    SliceOfRest(content, start, 5);
    PayloadReadAt(content, start + 5, n);
    ParseStep(content[start..], junk, n, body, read + Zeros(n - |read|), last);
    if |last| == 4 {
      SliceOfRest(content, start + 5, n + 4);
    }
  }

  class BinaryJournal {
    var writing: bool
    var written: seq<byte>
    var recordsWritten: nat

    var reading: bool
    var content: seq<byte>
    var pos: nat
    var good: bool

    /** A journal open for writing, for reading, for both or for neither. */
    constructor (writing: bool, reading: bool, content: seq<byte>)
      ensures this.writing == writing && written == [] && recordsWritten == 0
      ensures this.reading == reading && this.content == content && pos == 0 && good
    {
      this.writing, written, recordsWritten := writing, [], 0;
      this.reading, this.content, pos, good := reading, content, 0, true;
    }

    method WriteRecord(r: Record)
      modifies this`written, this`recordsWritten
      ensures written == old(written) + (if writing then Frame(r) else [])
      ensures recordsWritten == old(recordsWritten) + (if writing then 1 else 0)
    {
      hide Checksum, LowBytes, CrcBytes;
      if !writing {
        assert written + [] == written;
        return;
      }
      var crc := ComputeChecksum(r.payload);
      written := written + [r.typ];
      written := written + LowBytes(|r.payload|, 4);
      written := written + r.payload;
      written := written + CrcBytes(crc);
      assert written == old(written) + Frame(r);
      recordsWritten := recordsWritten + 1;
    }

    /** istream::read: all n bytes, or whatever is left and then the stream is no longer good. */
    method Read(n: nat) returns (bytes: seq<byte>)
      requires pos <= |content|
      modifies this`pos, this`good
      ensures bytes == if old(good) then Taken(content, old(pos), n) else []
      ensures pos == old(pos) + |bytes| <= |content|
      ensures good == (old(good) && |bytes| == n)
    {
      if !good {
        return [];
      }
      if pos + n <= |content| {
        bytes := content[pos..pos + n];
        pos := pos + n;
      } else {
        bytes := content[pos..];
        pos := |content|;
        good := false;
      }
    }

    /** One turn of the reading loop: a record, or nothing when reading is over. */
    method ReadRecord(junk: bv32) returns (r: Option<Record>)
      requires pos <= |content| && good
      modifies this`pos, this`good
      ensures old(pos) <= pos <= |content| && (r.Some? && good ==> old(pos) < pos)
      ensures Parse(old(content[pos..]), junk) ==
                if r.None? then [] else [r.value] + (if good then Parse(content[pos..], junk) else [])
    {
      hide Checksum, Word, ValueOf, Parse, Zeros, CrcBytes, Taken;
      ghost var start := pos;
      ParseStops(content[pos..], junk);
      var first := Read(1);
      if !good {
        return None;
      }
      var size := Read(4);
      if !good {
        return None;
      }
      SizeField(content, start);
      var psz := ValueOf(size);
      if psz > MAX_PAYLOAD {
        return None;
      }
      var read := Read(psz);
      var payload := read + Zeros(psz - |read|);
      var last := Read(4);
      var stored := Word(last + CrcBytes(junk)[|last|..]);
      var computed := ComputeChecksum(payload);
      ReadInOrder(content, start, size, read, last, junk);
      if computed != stored {
        return None;
      }
      return Some(Record(first[0], payload));
    }

    /** `junk` stands for what the checksum variable holds before it is set. */
    method ReadAll(junk: bv32) returns (records: seq<Record>)
      requires pos <= |content| && good
      modifies this`pos, this`good
      ensures records == if reading then Parse(old(content[pos..]), junk) else []
    {
      hide Parse;
      records := [];
      if !reading {
        return;
      }
      ghost var all := Parse(content[pos..], junk);
      while good
        invariant pos <= |content|
        invariant all == records + (if good then Parse(content[pos..], junk) else [])
        decreases |content| - pos, good
      {
        var r := ReadRecord(junk);
        if r.None? {
          break;
        }
        records := records + [r.value];
      }
    }
  }
}
