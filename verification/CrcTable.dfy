/**
 The checksum as section 8 of RFC 1952 writes it: a table of 256 entries, one look-up per byte. The
 journal's bit-by-bit loops compute the same.
 */
module CrcTable {
  import opened Bytes
  import opened Words
  import opened Crc

  /** The table entry of a byte after k more rounds of its loop. */
  function Entry(n: bv32, k: nat): bv32
    decreases k
  {
    if k == 0 then n else Entry(if n & 1 == 1 then 0xEDB88320 ^ (n >> 1) else n >> 1, k - 1)
  }

  function Index(c: bv32, b: byte): bv32 {
    (c ^ (b as bv32)) & 0xFF
  }

  function LookUp(c: bv32, b: byte): bv32 {
    Xor(Entry(Index(c, b), 8), c >> 8)
  }

  function Updated(c: bv32, buf: seq<byte>): bv32
    decreases |buf|
  {
    if buf == [] then c else Updated(LookUp(c, buf[0]), buf[1..])
  }

  function TableCrc(buf: seq<byte>): bv32 {
    Updated(0xFFFFFFFF, buf) ^ 0xFFFFFFFF
  }

  // ---------------------------------------------------------------- one entry is eight bit steps

  lemma RoundIsBitStep(n: bv32)
    ensures BitStep(n) == if n & 1 == 1 then 0xEDB88320 ^ (n >> 1) else n >> 1
  {
    BitStepByCases(n);
    LowBitIsBit(n);
    if n & 1 == 1 {
      XorCommutes(Half(n), 0xEDB88320);
    } else {
      XorNothing(Half(n));
    }
  }

  lemma {:induction false} EntryIsBitSteps(n: bv32, k: nat)
    ensures Entry(n, k) == BitSteps(n, k)
    decreases k
  {
    hide BitStep;
    if k > 0 {
      RoundIsBitStep(n);
      EntryIsBitSteps(BitStep(n), k - 1);
    }
  }

  // ---------------------------------------------------------------- the other bytes wait

  ghost predicate LowBitsZero(z: bv32, n: nat)
    decreases n
  {
    n > 0 ==> Even(z) && LowBitsZero(Half(z), n - 1)
  }

  ghost function ShiftDown(z: bv32, n: nat): bv32
    decreases n
  {
    if n == 0 then z else ShiftDown(Half(z), n - 1)
  }

  lemma {:induction false} BitStepsShift(x: bv32, z: bv32, n: nat)
    requires LowBitsZero(z, n)
    ensures BitSteps(Xor(x, z), n) == Xor(BitSteps(x, n), ShiftDown(z, n))
    decreases n
  {
    hide BitStep, Xor, Half, Even;
    if n > 0 {
      BitStepShifts(x, z);
      BitStepsShift(BitStep(x), Half(z), n - 1);
    }
  }

  /** All but the low byte of a word, in place. */
  ghost function Upper(c: bv32): bv32 {
    (c >> 8) << 8
  }

  lemma UpperWaits(c: bv32)
    ensures LowBitsZero(Upper(c), 8)
  {
  }

  lemma UpperComesDown(c: bv32)
    ensures ShiftDown(Upper(c), 8) == c >> 8
  {
  }

  /** A state with a byte added: its low byte, and the rest on its own. */
  lemma LowByteApart(c: bv32, b: byte)
    ensures Xor(c, Bits(b)) == Xor(Index(c, b), Upper(c))
  {
  }

  lemma ByteIsLookUp(c: bv32, b: byte)
    ensures ByteStep(c, b) == LookUp(c, b)
  {
    hide Xor, Bits, BitSteps, Entry, Index, Upper, LowBitsZero, ShiftDown;
    LowByteApart(c, b);
    UpperWaits(c);
    UpperComesDown(c);
    BitStepsShift(Index(c, b), Upper(c), 8);
    EntryIsBitSteps(Index(c, b), 8);
  }

  lemma {:induction false} UpdatedIsFeed(c: bv32, buf: seq<byte>)
    ensures Updated(c, buf) == Feed(c, buf)
    decreases |buf|
  {
    hide ByteStep, LookUp;
    if buf != [] {
      ByteIsLookUp(c, buf[0]);
      UpdatedIsFeed(ByteStep(c, buf[0]), buf[1..]);
    }
  }

  /** The journal's checksum is the standard's, on every byte string. */
  lemma ChecksumIsTableCrc(buf: seq<byte>)
    ensures Checksum(buf) == TableCrc(buf)
  {
    hide Feed, Updated;
    UpdatedIsFeed(0xFFFFFFFF, buf);
  }
}
