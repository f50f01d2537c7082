/**
 The journal's checksum: the bitwise CRC-32 of section 8 of RFC 1952 (reflected polynomial EDB88320,
 preset and inverted with all ones), and why it catches every burst of up to 32 bits.
 */
module Crc {
  import opened Bytes
  import opened Words

  const POLYNOMIAL: bv32 := 0xEDB88320
  const ALL_ONES: bv32 := 0xFFFFFFFF

  function Bits(b: byte): bv32 {
    b as bv32
  }

  function BitStep(crc: bv32): bv32 {
    Xor(Half(crc), Masked(POLYNOMIAL, crc))
  }

  function BitSteps(crc: bv32, n: nat): bv32
    decreases n
  {
    if n == 0 then crc else BitSteps(BitStep(crc), n - 1)
  }

  function ByteStep(crc: bv32, b: byte): bv32 {
    BitSteps(Xor(crc, Bits(b)), 8)
  }

  function Feed(crc: bv32, data: seq<byte>): bv32
    decreases |data|
  {
    if data == [] then crc else Feed(ByteStep(crc, data[0]), data[1..])
  }

  function Checksum(data: seq<byte>): bv32 {
    Xor(Feed(ALL_ONES, data), ALL_ONES)
  }

  /** The inner loop: one byte goes in, eight bit steps. */
  method StepByte(before: bv32, b: byte) returns (crc: bv32)
    ensures crc == ByteStep(before, b)
  {
    crc := before ^ Bits(b);
    for j := 0 to 8
      invariant BitSteps(crc, 8 - j) == ByteStep(before, b)
    {
      crc := (crc >> 1) ^ (POLYNOMIAL & (0 - (crc & 1)));
    }
  }

  /** The checksum routine. */
  method ComputeChecksum(data: seq<byte>) returns (crc: bv32)
    ensures crc == Checksum(data)
  {
    hide ByteStep;
    crc := ALL_ONES;
    for i := 0 to |data|
      invariant Feed(crc, data[i..]) == Feed(ALL_ONES, data)
    {
      assert data[i..][0] == data[i] && data[i..][1..] == data[i + 1..];
      crc := StepByte(crc, data[i]);
    }
    assert data[|data|..] == [];
    crc := crc ^ ALL_ONES;
  }

  // ---------------------------------------------------------------- each step is a bijection

  /** The mask in a bit step is a choice: the polynomial comes in exactly for an odd word. */
  lemma BitStepByCases(crc: bv32)
    ensures BitStep(crc) == Xor(Half(crc), if Even(crc) then 0 else POLYNOMIAL)
  {
    hide Xor, Half, Even, Masked;
    MaskByLowBit(POLYNOMIAL, crc);
  }

  lemma BitStepInjective(a: bv32, c: bv32)
    requires BitStep(a) == BitStep(c)
    ensures a == c
  {
    hide BitStep, Xor, Half, Even;
    BitStepByCases(a);
    BitStepByCases(c);
    if Even(a) == Even(c) {
      XorInjective(Half(a), Half(c), if Even(a) then 0 else POLYNOMIAL);
      HalfAndLowBit(a, c);
    } else {
      HalvesApart(a, c, POLYNOMIAL);
      HalvesApart(c, a, POLYNOMIAL);
    }
  }

  lemma {:induction false} BitStepsInjective(a: bv32, c: bv32, n: nat)
    requires BitSteps(a, n) == BitSteps(c, n)
    ensures a == c
    decreases n
  {
    if n > 0 {
      BitStepsInjective(BitStep(a), BitStep(c), n - 1);
      BitStepInjective(a, c);
    }
  }

  // ---------------------------------------------------------------- high bits wait their turn

  /** One bit step passes over a difference that is not in the lowest bit. */
  lemma BitStepShifts(x: bv32, z: bv32)
    requires Even(z)
    ensures BitStep(Xor(x, z)) == Xor(BitStep(x), Half(z))
  {
    hide BitStep, Xor, Half, Even;
    BitStepByCases(x);
    BitStepByCases(Xor(x, z));
    EvenLeavesLowBit(x, z);
    HalfOverXor(x, z);
    XorSwap(Half(x), Half(z), if Even(x) then 0 else POLYNOMIAL);
  }

  // ---------------------------------------------------------------- bit by bit

  /** The n low bits of a byte, lowest first. */
  function BitsFrom(b: byte, n: nat): (bits: seq<bool>)
    ensures |bits| == n
    decreases n
  {
    if n == 0 then [] else [b & 1 != 0] + BitsFrom(b >> 1, n - 1)
  }

  /** The bits of a byte string in the order in which they go into the checksum. */
  function BitsOf(data: seq<byte>): (bits: seq<bool>)
    ensures |bits| == 8 * |data|
  {
    if data == [] then [] else BitsFrom(data[0], 8) + BitsOf(data[1..])
  }

  /** Bits as a word, the first one lowest, with z above them. */
  function Pack(bits: seq<bool>, z: bv32): bv32 {
    if bits == [] then z else Push(bits[0], Pack(bits[1..], z))
  }

  function FeedBits(crc: bv32, bits: seq<bool>): bv32
    decreases |bits|
  {
    if bits == [] then crc else FeedBits(BitStep(Xor(crc, BitWord(bits[0]))), bits[1..])
  }

  function Power2(n: nat): nat {
    if n == 0 then 1 else 2 * Power2(n - 1)
  }

  lemma {:induction false} PowerGrows(m: nat, n: nat)
    requires m <= n
    ensures Power2(m) <= Power2(n)
  {
    if m < n {
      PowerGrows(m, n - 1);
    }
  }

  lemma EightUp(n: nat)
    ensures Power2(n + 8) == 256 * Power2(n)
  {
    assert Power2(n + 2) == 4 * Power2(n);
    assert Power2(n + 4) == 16 * Power2(n);
    assert Power2(n + 6) == 64 * Power2(n);
  }

  lemma PowerEnds()
    ensures Power2(0) == 1 && forall n: nat :: Power2(n + 1) == 2 * Power2(n)
  {
  }

  /** A word of fewer than 32 bits has room for one more. */
  lemma Room(n: nat)
    requires n <= 31
    ensures Power2(n) <= 0x8000_0000
  {
    hide Power2;
    PowerGrows(n, 31);
    PowerEnds();
    EightUp(0);
    EightUp(8);
    EightUp(16);
    EightUp(24);
    assert Power2(31 + 1) == 2 * Power2(31);
  }

  lemma {:induction false} PackFits(bits: seq<bool>)
    requires |bits| <= 32
    ensures Pack(bits, 0) as nat < Power2(|bits|)
  {
    hide Push;
    if bits != [] {
      Room(|bits| - 1);
      PackFits(bits[1..]);
      PushValue(bits[0], Pack(bits[1..], 0));
    }
  }

  /** Feeding up to 32 bits is adding the word they form and stepping past all of them. */
  lemma {:induction false} FeedBitsIsWord(s: bv32, bits: seq<bool>)
    requires |bits| <= 32
    ensures FeedBits(s, bits) == BitSteps(Xor(s, Pack(bits, 0)), |bits|)
    decreases |bits|
  {
    hide BitStep, Xor, Push, BitWord, Double, Half, Even;
    if bits == [] {
      XorNothing(s);
    } else {
      var first, rest := BitWord(bits[0]), Pack(bits[1..], 0);
      Room(|bits| - 1);
      PackFits(bits[1..]);
      FeedBitsIsWord(BitStep(Xor(s, first)), bits[1..]);
      PushIsXor(bits[0], rest);
      XorAssociates(s, first, Double(rest));
      BitStepShifts(Xor(s, first), Double(rest));
      DoubleHalf(rest);
    }
  }

  lemma {:induction false} PackFrom(b: byte, n: nat, bits: seq<bool>, z: bv32)
    ensures Pack(BitsFrom(b, n) + bits, z) == Gather(b, n, Pack(bits, z))
    decreases n
  {
    hide Push;
    if n == 0 {
      assert [] + bits == bits;
    } else {
      var all := BitsFrom(b, n) + bits;
      assert all[0] == (b & 1 != 0) && all[1..] == BitsFrom(b >> 1, n - 1) + bits;
      PackFrom(b >> 1, n - 1, bits, z);
    }
  }

  lemma ByteIsBits(crc: bv32, b: byte)
    ensures ByteStep(crc, b) == FeedBits(crc, BitsFrom(b, 8))
  {
    hide BitSteps, Xor, FeedBits, BitsFrom, Pack, Gather, Stack;
    FeedBitsIsWord(crc, BitsFrom(b, 8));
    PackFrom(b, 8, [], 0);
    assert BitsFrom(b, 8) + [] == BitsFrom(b, 8);
    NoBits(0);
    GatherByte(b, 0);
    StackOnNothing(b);
  }

  lemma NoBits(z: bv32)
    ensures Pack([], z) == z
  {
  }

  lemma {:induction false} FeedBitsConcat(crc: bv32, a: seq<bool>, c: seq<bool>)
    ensures FeedBits(crc, a + c) == FeedBits(FeedBits(crc, a), c)
    decreases |a|
  {
    hide BitStep, Xor, BitWord;
    if a == [] {
      assert a + c == c;
    } else {
      assert (a + c)[0] == a[0] && (a + c)[1..] == a[1..] + c;
      FeedBitsConcat(BitStep(Xor(crc, BitWord(a[0]))), a[1..], c);
    }
  }

  /** The two nested loops over bytes and bits feed the bits one by one. */
  lemma {:induction false} FeedIsBitByBit(crc: bv32, data: seq<byte>)
    ensures Feed(crc, data) == FeedBits(crc, BitsOf(data))
    decreases |data|
  {
    hide ByteStep, BitsFrom;
    if data != [] {
      ByteIsBits(crc, data[0]);
      FeedIsBitByBit(ByteStep(crc, data[0]), data[1..]);
      FeedBitsConcat(crc, BitsFrom(data[0], 8), BitsOf(data[1..]));
    }
  }

  lemma {:induction false} FeedBitsInjective(a: bv32, c: bv32, bits: seq<bool>)
    requires FeedBits(a, bits) == FeedBits(c, bits)
    ensures a == c
    decreases |bits|
  {
    hide BitStep, Xor, BitWord;
    if bits != [] {
      var x := BitWord(bits[0]);
      FeedBitsInjective(BitStep(Xor(a, x)), BitStep(Xor(c, x)), bits[1..]);
      BitStepInjective(Xor(a, x), Xor(c, x));
      XorInjective(a, c, x);
    }
  }

  /** Feeding any bytes keeps different states different. */
  lemma FeedInjective(a: bv32, c: bv32, data: seq<byte>)
    requires Feed(a, data) == Feed(c, data)
    ensures a == c
  {
    hide Feed, FeedBits;
    FeedIsBitByBit(a, data);
    FeedIsBitByBit(c, data);
    FeedBitsInjective(a, c, BitsOf(data));
  }

  lemma {:induction false} PackInjective(w: seq<bool>, w': seq<bool>)
    requires |w| == |w'| <= 32 && Pack(w, 0) == Pack(w', 0)
    ensures w == w'
  {
    hide Push, Half, Even;
    if w != [] {
      Room(|w| - 1);
      PackFits(w[1..]);
      PackFits(w'[1..]);
      PushTakenApart(w[0], Pack(w[1..], 0));
      PushTakenApart(w'[0], Pack(w'[1..], 0));
      PackInjective(w[1..], w'[1..]);
      assert w == [w[0]] + w[1..] && w' == [w'[0]] + w'[1..];
    }
  }

  // ---------------------------------------------------------------- bursts

  /** Different windows of up to 32 bits leave different states behind. */
  lemma WindowShows(s: bv32, w: seq<bool>, w': seq<bool>, after: seq<bool>)
    requires |w| == |w'| <= 32 && FeedBits(s, w + after) == FeedBits(s, w' + after)
    ensures w == w'
  {
    hide FeedBits, BitSteps, Xor, Pack;
    FeedBitsConcat(s, w, after);
    FeedBitsConcat(s, w', after);
    FeedBitsInjective(FeedBits(s, w), FeedBits(s, w'), after);
    FeedBitsIsWord(s, w);
    FeedBitsIsWord(s, w');
    BitStepsInjective(Xor(s, Pack(w, 0)), Xor(s, Pack(w', 0)), |w|);
    XorCommutes(s, Pack(w, 0));
    XorCommutes(s, Pack(w', 0));
    XorInjective(Pack(w, 0), Pack(w', 0), s);
    PackInjective(w, w');
  }

  /** All differences lie within the 32 bits from bit k on, wherever bytes begin. */
  ghost predicate DifferWithin(a: seq<byte>, c: seq<byte>, k: nat)
    requires |a| == |c|
  {
    forall i :: 0 <= i < 8 * |a| && (i < k || i >= k + 32) ==> BitsOf(a)[i] == BitsOf(c)[i]
  }

  /** Two byte strings of one length that differ, but only within 32 consecutive bits. */
  ghost predicate Burst(a: seq<byte>, c: seq<byte>) {
    |a| == |c| && a != c && exists k: nat :: DifferWithin(a, c, k)
  }

  lemma {:induction false} SameBitsSameByte(a: byte, c: byte, n: nat, z: bv32)
    requires BitsFrom(a, n) == BitsFrom(c, n)
    ensures Gather(a, n, z) == Gather(c, n, z)
    decreases n
  {
    hide Push;
    if n > 0 {
      assert BitsFrom(a, n)[0] == BitsFrom(c, n)[0];
      assert BitsFrom(a, n)[1..] == BitsFrom(a >> 1, n - 1) && BitsFrom(c, n)[1..] == BitsFrom(c >> 1, n - 1);
      SameBitsSameByte(a >> 1, c >> 1, n - 1, z);
    }
  }

  lemma ByteFromBits(a: byte, c: byte)
    requires BitsFrom(a, 8) == BitsFrom(c, 8)
    ensures a == c
  {
    hide Gather, Stack;
    SameBitsSameByte(a, c, 8, 0);
    GatherByte(a, 0);
    GatherByte(c, 0);
    StackOnNothing(a);
    StackOnNothing(c);
    NarrowSame(a, c);
  }

  lemma NarrowSame(a: byte, c: byte)
    requires Bits(a) == Bits(c)
    ensures a == c
  {
  }

  lemma {:induction false} BitsOfInjective(a: seq<byte>, c: seq<byte>)
    requires |a| == |c| && BitsOf(a) == BitsOf(c)
    ensures a == c
  {
    hide BitsFrom;
    if a != [] {
      assert BitsFrom(a[0], 8) == BitsOf(a)[..8] && BitsFrom(c[0], 8) == BitsOf(c)[..8];
      assert BitsOf(a[1..]) == BitsOf(a)[8..] && BitsOf(c[1..]) == BitsOf(c)[8..];
      ByteFromBits(a[0], c[0]);
      BitsOfInjective(a[1..], c[1..]);
      assert a == [a[0]] + a[1..] && c == [c[0]] + c[1..];
    }
  }

  /** The window of up to 32 bits around all differences, and what is the same on both sides of it. */
  lemma Window(x: seq<bool>, y: seq<bool>, k: nat) returns (from: nat, to: nat)
    requires |x| == |y| && forall i :: 0 <= i < |x| && (i < k || i >= k + 32) ==> x[i] == y[i]
    ensures from <= to <= |x| && to <= from + 32 && x[..from] == y[..from] && x[to..] == y[to..]
    ensures x == x[..from] + (x[from..to] + x[to..]) && y == y[..from] + (y[from..to] + y[to..])
  {
    from := if k <= |x| then k else |x|;
    to := if k + 32 <= |x| then k + 32 else |x|;
  }

  /** A burst of up to 32 bits always changes the state that feeding leaves behind. */
  lemma BurstChangesState(s: bv32, a: seq<byte>, c: seq<byte>)
    requires Burst(a, c)
    ensures Feed(s, a) != Feed(s, c)
  {
    hide Feed, FeedBits, BitsOf;
    if Feed(s, a) == Feed(s, c) {
      var k: nat :| DifferWithin(a, c, k);
      var x, y := BitsOf(a), BitsOf(c);
      var from, to := Window(x, y, k);
      FeedIsBitByBit(s, a);
      FeedIsBitByBit(s, c);
      FeedBitsConcat(s, x[..from], x[from..to] + x[to..]);
      FeedBitsConcat(s, y[..from], y[from..to] + y[to..]);
      WindowShows(FeedBits(s, x[..from]), x[from..to], y[from..to], x[to..]);
      BitsOfInjective(a, c);
    }
  }

  /** Two payloads that differ only within 32 consecutive bits never share a checksum. */
  lemma BurstDetected(a: seq<byte>, c: seq<byte>)
    requires Burst(a, c)
    ensures Checksum(a) != Checksum(c)
  {
    hide Feed, Xor, Burst;
    BurstChangesState(ALL_ONES, a, c);
    if Checksum(a) == Checksum(c) {
      XorInjective(Feed(ALL_ONES, a), Feed(ALL_ONES, c), ALL_ONES);
    }
  }

  lemma {:induction false} BitsConcat(a: seq<byte>, c: seq<byte>)
    ensures BitsOf(a + c) == BitsOf(a) + BitsOf(c)
  {
    hide BitsFrom;
    if a == [] {
      assert a + c == c;
    } else {
      assert (a + c)[0] == a[0] && (a + c)[1..] == a[1..] + c;
      BitsConcat(a[1..], c);
      assert BitsFrom(a[0], 8) + (BitsOf(a[1..]) + BitsOf(c)) == (BitsFrom(a[0], 8) + BitsOf(a[1..])) + BitsOf(c);
    }
  }

  /** In particular, differences within four consecutive bytes are such a burst. */
  lemma FourBytesAreABurst(before: seq<byte>, w: seq<byte>, w': seq<byte>, after: seq<byte>)
    requires |w| == |w'| <= 4 && w != w'
    ensures Burst(before + w + after, before + w' + after)
  {
    hide BitsOf;
    var a, c := before + w + after, before + w' + after;
    assert a[|before|..|before| + |w|] == w && c[|before|..|before| + |w|] == w';
    BitsConcat(before + w, after);
    BitsConcat(before, w);
    BitsConcat(before + w', after);
    BitsConcat(before, w');
    assert DifferWithin(a, c, 8 * |before|);
  }

  lemma FiveBytes(data: seq<byte>, s1: bv32, s2: bv32, s3: bv32, s4: bv32, s5: bv32)
    requires |data| == 5 && s1 == ByteStep(ALL_ONES, data[0]) && s2 == ByteStep(s1, data[1])
    requires s3 == ByteStep(s2, data[2]) && s4 == ByteStep(s3, data[3]) && s5 == ByteStep(s4, data[4])
    ensures Feed(ALL_ONES, data) == s5
  {
    hide ByteStep;
    var d1, d2, d3, d4 := data[1..], data[2..], data[3..], data[4..];
    assert d1[1..] == d2 && d2[1..] == d3 && d3[1..] == d4 && d4[1..] == [];
    assert Feed(s5, []) == s5;
    assert Feed(s4, d4) == s5;
    assert Feed(s3, d3) == s5;
    assert Feed(s2, d2) == s5;
    assert Feed(s1, d1) == s5;
  }

  lemma ZeroSteps()
    ensures ByteStep(0xFFFFFFFF, 0) == 0x2DFD1072 && ByteStep(0x2DFD1072, 0) == 0xBE26ED00
    ensures ByteStep(0xBE26ED00, 0) == 0x00BE26ED && ByteStep(0x00BE26ED, 0) == 0xDEBB20E3
    ensures ByteStep(0xDEBB20E3, 0) == 0x39DD08E2
  {
  }

  lemma PolynomialSteps()
    ensures ByteStep(0xFFFFFFFF, 0x41) == 0x2C266174 && ByteStep(0x2C266174, 0x06) == 0xBE273671
    ensures ByteStep(0xBE273671, 0x71) == 0x00BE2736 && ByteStep(0x00BE2736, 0xDB) == 0xDEBB20E2
    ensures ByteStep(0xDEBB20E2, 0x01) == 0x39DD08E2
  {
  }

  /** All differences lie within the first 33 bits. */
  lemma DifferAtFront(a: seq<byte>, c: seq<byte>)
    requires |a| == |c| == 5 && a[4] == 0 && c[4] == 1
    ensures forall i :: 33 <= i < 40 ==> BitsOf(a)[i] == BitsOf(c)[i]
  {
    hide BitsOf, BitsFrom;
    assert a == a[..4] + a[4..] && c == c[..4] + c[4..];
    BitsConcat(a[..4], a[4..]);
    BitsConcat(c[..4], c[4..]);
    BitsOfOne(a[4..]);
    BitsOfOne(c[4..]);
    BitsMore(0, 8);
    BitsMore(1, 8);
  }

  lemma BitsOfOne(d: seq<byte>)
    requires |d| == 1
    ensures BitsOf(d) == BitsFrom(d[0], 8)
  {
  }

  lemma BitsMore(b: byte, n: nat)
    requires n > 0 && b <= 1
    ensures BitsFrom(b, n) == [b == 1] + BitsFrom(0, n - 1)
  {
  }

  /** The bound is sharp: differences within 33 bits go unseen if they are the polynomial itself. */
  lemma LongerBurstCanHide()
    ensures exists a: seq<byte>, c: seq<byte> :: |a| == |c| == 5 && a != c && Checksum(a) == Checksum(c)
              && forall i :: 33 <= i < 40 ==> BitsOf(a)[i] == BitsOf(c)[i]
  {
    hide ByteStep, BitsOf, Feed;
    var a: seq<byte>, c: seq<byte> := [0, 0, 0, 0, 0], [0x41, 0x06, 0x71, 0xDB, 0x01];
    ZeroSteps();
    PolynomialSteps();
    FiveBytes(a, 0x2DFD1072, 0xBE26ED00, 0x00BE26ED, 0xDEBB20E3, 0x39DD08E2);
    FiveBytes(c, 0x2C266174, 0xBE273671, 0x00BE2736, 0xDEBB20E2, 0x39DD08E2);
    DifferAtFront(a, c);
    assert a[4] != c[4];
  }

  // ---------------------------------------------------------------- payload and stored checksum together

  /** Up to four bytes as the little-endian word they form. */
  function Word(w: seq<byte>): bv32
    requires |w| <= 4
  {
    if w == [] then 0 else Stack(w[0], Word(w[1..]))
  }

  lemma {:induction false} WordIsPacked(w: seq<byte>)
    requires |w| <= 4
    ensures Word(w) == Pack(BitsOf(w), 0)
  {
    hide Pack, Gather, BitsFrom, Stack;
    NoBits(0);
    if w != [] {
      WordIsPacked(w[1..]);
      PackFrom(w[0], 8, BitsOf(w[1..]), 0);
      GatherByte(w[0], Pack(BitsOf(w[1..]), 0));
    }
  }

  lemma WordInjective(w: seq<byte>, w': seq<byte>)
    requires |w| == |w'| <= 4 && Word(w) == Word(w')
    ensures w == w'
  {
    hide Word, Pack, BitsOf;
    WordIsPacked(w);
    WordIsPacked(w');
    PackInjective(BitsOf(w), BitsOf(w'));
    BitsOfInjective(w, w');
  }

  lemma {:induction false} FeedConcat(crc: bv32, a: seq<byte>, c: seq<byte>)
    ensures Feed(crc, a + c) == Feed(Feed(crc, a), c)
    decreases |a|
  {
    hide ByteStep;
    if a == [] {
      assert a + c == c;
    } else {
      assert (a + c)[1..] == a[1..] + c;
      FeedConcat(ByteStep(crc, a[0]), a[1..], c);
    }
  }

  /** A stored checksum matches its payload if and only if feeding both leaves one constant behind. */
  lemma MatchesIff(payload: seq<byte>, stored: seq<byte>)
    requires |stored| == 4
    ensures Word(stored) == Checksum(payload) <==> Feed(ALL_ONES, payload + stored) == BitSteps(ALL_ONES, 32)
  {
    hide Feed, BitSteps, Word, Pack, BitsOf, FeedBits, Xor;
    var r, w := Feed(ALL_ONES, payload), Word(stored);
    FeedConcat(ALL_ONES, payload, stored);
    FeedIsBitByBit(r, stored);
    FeedBitsIsWord(r, BitsOf(stored));
    WordIsPacked(stored);
    XorMoves(r, w, ALL_ONES);
    if Feed(ALL_ONES, payload + stored) == BitSteps(ALL_ONES, 32) {
      BitStepsInjective(Xor(r, w), ALL_ONES, 32);
    }
  }

  /** A burst of up to 32 bits anywhere in a payload and its stored checksum, or across the two, leaves a
      checksum that does not match. */
  lemma BurstNeverMatches(payload: seq<byte>, stored: seq<byte>, payload': seq<byte>, stored': seq<byte>)
    requires |stored| == |stored'| == 4 && Word(stored) == Checksum(payload)
    requires Burst(payload + stored, payload' + stored')
    ensures Word(stored') != Checksum(payload')
  {
    hide Feed, BitSteps, Word, Burst, Checksum;
    MatchesIff(payload, stored);
    MatchesIff(payload', stored');
    BurstChangesState(ALL_ONES, payload + stored, payload' + stored');
  }
}
