/**
 Facts about 32-bit words, one small bit-vector argument each. They stand in a module of their own,
 behind named operations, so that proofs about checksums never reason about single bits.
 */
module Words {

  function Xor(a: bv32, c: bv32): bv32 {
    a ^ c
  }

  function Half(z: bv32): bv32 {
    z >> 1
  }

  function Double(z: bv32): bv32 {
    z << 1
  }

  predicate Even(z: bv32) {
    z & 1 == 0
  }

  /** A constant masked with minus a word's lowest bit. */
  function Masked(p: bv32, x: bv32): bv32 {
    p & (0 - (x & 1))
  }

  /** That mask is all ones or none. */
  lemma MaskByLowBit(p: bv32, x: bv32)
    ensures Masked(p, x) == if Even(x) then 0 else p
  {
    if x & 1 == 0 {
      NothingKept(p);
    } else {
      LowBitIsBit(x);
      AllOnesKeep(p);
    }
  }

  lemma LowBitIsBit(x: bv32)
    ensures x & 1 == 0 || x & 1 == 1
  {
  }

  lemma NothingKept(p: bv32)
    ensures p & (0 - 0) == 0
  {
  }

  lemma AllOnesKeep(p: bv32)
    ensures p & (0 - 1) == p
  {
  }

  // ---------------------------------------------------------------- exclusive or

  lemma XorInjective(a: bv32, c: bv32, m: bv32)
    requires Xor(a, m) == Xor(c, m)
    ensures a == c
  {
  }

  lemma XorCommutes(a: bv32, c: bv32)
    ensures Xor(a, c) == Xor(c, a)
  {
  }

  lemma XorNothing(s: bv32)
    ensures Xor(s, 0) == s
  {
  }

  lemma XorAssociates(a: bv32, c: bv32, m: bv32)
    ensures Xor(Xor(a, c), m) == Xor(a, Xor(c, m))
  {
  }

  lemma XorSwap(a: bv32, c: bv32, m: bv32)
    ensures Xor(Xor(a, c), m) == Xor(Xor(a, m), c)
  {
    hide Xor;
    XorAssociates(a, c, m);
    XorCommutes(c, m);
    XorAssociates(a, m, c);
  }

  lemma XorTwice(r: bv32, x: bv32)
    ensures Xor(r, Xor(r, x)) == x
  {
  }

  lemma XorMoves(r: bv32, w: bv32, m: bv32)
    ensures w == Xor(r, m) <==> Xor(r, w) == m
  {
    hide Xor;
    XorTwice(r, m);
    XorTwice(r, w);
  }

  // ---------------------------------------------------------------- halves

  lemma EvenLeavesLowBit(x: bv32, z: bv32)
    requires Even(z)
    ensures Even(Xor(x, z)) == Even(x)
  {
  }

  lemma HalfOverXor(x: bv32, z: bv32)
    ensures Half(Xor(x, z)) == Xor(Half(x), Half(z))
  {
  }

  lemma HalfAndLowBit(a: bv32, c: bv32)
    requires Half(a) == Half(c) && Even(a) == Even(c)
    ensures a == c
  {
  }

  /** A half has no top bit, so a constant with a top bit keeps two halves apart. */
  lemma HalvesApart(a: bv32, c: bv32, p: bv32)
    requires p & 0x80000000 != 0
    ensures Xor(Half(a), p) != Xor(Half(c), 0)
  {
  }

  // ---------------------------------------------------------------- bits in words

  function BitWord(bit: bool): bv32 {
    if bit then 1 else 0
  }

  /** A word moved up to make room for one more bit below. */
  function Push(bit: bool, z: bv32): bv32 {
    if bit then (z << 1) | 1 else z << 1
  }

  lemma PushIsXor(bit: bool, z: bv32)
    ensures Push(bit, z) == Xor(BitWord(bit), Double(z)) && Even(Double(z))
  {
    if bit {
      OneBelow(z);
    } else {
      NothingBelow(z);
    }
  }

  lemma OneBelow(z: bv32)
    ensures (z << 1) | 1 == 1 ^ (z << 1) && (z << 1) & 1 == 0
  {
  }

  lemma NothingBelow(z: bv32)
    ensures z << 1 == 0 ^ (z << 1) && (z << 1) & 1 == 0
  {
  }

  lemma PushValue(bit: bool, z: bv32)
    requires z as nat < 0x8000_0000
    ensures Push(bit, z) as nat == 2 * (z as nat) + if bit then 1 else 0
  {
    if bit {
      OddValue(z);
    } else {
      EvenValue(z);
    }
  }

  lemma OddValue(z: bv32)
    requires z as nat < 0x8000_0000
    ensures ((z << 1) | 1) as nat == 2 * (z as nat) + 1
  {
  }

  lemma EvenValue(z: bv32)
    requires z as nat < 0x8000_0000
    ensures (z << 1) as nat == 2 * (z as nat)
  {
  }

  lemma DoubleHalf(z: bv32)
    requires z as nat < 0x8000_0000
    ensures Half(Double(z)) == z
  {
  }

  lemma PushTakenApart(bit: bool, z: bv32)
    requires z as nat < 0x8000_0000
    ensures Half(Push(bit, z)) == z && Even(Push(bit, z)) == !bit
  {
    if bit {
      OneTakenOff(z);
    } else {
      NothingTakenOff(z);
    }
  }

  lemma OneTakenOff(z: bv32)
    requires z as nat < 0x8000_0000
    ensures ((z << 1) | 1) >> 1 == z && ((z << 1) | 1) & 1 != 0
  {
  }

  lemma NothingTakenOff(z: bv32)
    requires z as nat < 0x8000_0000
    ensures (z << 1) >> 1 == z && (z << 1) & 1 == 0
  {
  }

  // ---------------------------------------------------------------- bytes in words

  /** The n low bits of a byte pushed onto a word, the lowest last. */
  function Gather(b: bv8, n: nat, z: bv32): bv32 {
    if n == 0 then z else Push(b & 1 != 0, Gather(b >> 1, n - 1, z))
  }

  /** A byte below a word. */
  function Stack(b: bv8, z: bv32): bv32 {
    (b as bv32) | (z << 8)
  }

  /** The lowest bit of a byte, as a word, below another. */
  function PushLow(c: bv8, x: bv32): bv32 {
    (x << 1) | ((c & 1) as bv32)
  }

  lemma PushIsLow(c: bv8, x: bv32)
    ensures Push(c & 1 != 0, x) == PushLow(c, x)
  {
    if c & 1 == 0 {
      EvenByte(c, x);
    } else {
      OddByte(c, x);
    }
  }

  lemma EvenByte(c: bv8, x: bv32)
    requires c & 1 == 0
    ensures (x << 1) | ((c & 1) as bv32) == x << 1
  {
  }

  lemma OddByte(c: bv8, x: bv32)
    requires c & 1 != 0
    ensures (x << 1) | ((c & 1) as bv32) == (x << 1) | 1
  {
  }

  lemma EightPushes(b: bv8, z: bv32)
    ensures var x4 := PushLow(b >> 4, PushLow(b >> 5, PushLow(b >> 6, PushLow(b >> 7, z))));
            PushLow(b, PushLow(b >> 1, PushLow(b >> 2, PushLow(b >> 3, x4)))) == Stack(b, z)
  {
  }

  lemma Shifts(b: bv8)
    ensures (b >> 1) >> 1 == b >> 2 && (b >> 2) >> 1 == b >> 3 && (b >> 3) >> 1 == b >> 4
    ensures (b >> 4) >> 1 == b >> 5 && (b >> 5) >> 1 == b >> 6 && (b >> 6) >> 1 == b >> 7
  {
  }

  lemma GatherMore(b: bv8, n: nat, z: bv32)
    requires n > 0
    ensures Gather(b, n, z) == PushLow(b, Gather(b >> 1, n - 1, z))
  {
    PushIsLow(b, Gather(b >> 1, n - 1, z));
  }

  /** All eight bits pushed are the byte stacked. */
  lemma GatherByte(b: bv8, z: bv32)
    ensures Gather(b, 8, z) == Stack(b, z)
  {
    hide PushLow, Push, Stack;
    Shifts(b);
    GatherMore(b, 8, z);
    GatherMore(b >> 1, 7, z);
    GatherMore(b >> 2, 6, z);
    GatherMore(b >> 3, 5, z);
    GatherMore(b >> 4, 4, z);
    GatherMore(b >> 5, 3, z);
    GatherMore(b >> 6, 2, z);
    GatherMore(b >> 7, 1, z);
    EightPushes(b, z);
  }

  lemma StackOnNothing(b: bv8)
    ensures Stack(b, 0) == b as bv32
  {
  }

  function LowByte(x: bv32): bv8 {
    (x & 0xFF) as bv8
  }

  /** Four bytes stacked, the first one lowest. */
  function FourOf(b0: bv8, b1: bv8, b2: bv8, b3: bv8): bv32 {
    Stack(b0, Stack(b1, Stack(b2, Stack(b3, 0))))
  }

  lemma FourStacked(b0: bv8, b1: bv8, b2: bv8, b3: bv8)
    ensures FourOf(b0, b1, b2, b3)
         == (b0 as bv32) | ((b1 as bv32) << 8) | ((b2 as bv32) << 16) | ((b3 as bv32) << 24)
  {
  }

  lemma Widened(x: bv32)
    ensures LowByte(x) as bv32 == x & 0xFF
  {
  }

  lemma FourBytes(x: bv32)
    ensures (x & 0xFF) | (((x >> 8) & 0xFF) << 8) | (((x >> 16) & 0xFF) << 16) | (((x >> 24) & 0xFF) << 24) == x
  {
  }

  /** A word is its four bytes stacked. */
  lemma TakenToBytes(x: bv32)
    ensures FourOf(LowByte(x), LowByte(x >> 8), LowByte(x >> 16), LowByte(x >> 24)) == x
  {
    hide LowByte, FourOf;
    FourStacked(LowByte(x), LowByte(x >> 8), LowByte(x >> 16), LowByte(x >> 24));
    Widened(x);
    Widened(x >> 8);
    Widened(x >> 16);
    Widened(x >> 24);
    FourBytes(x);
  }
}
