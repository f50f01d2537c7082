/** Bytes, and numbers below 256 as bytes. */
module Bytes {

  type byte = bv8

  lemma NextByte(b: byte)
    requires b != 255
    ensures (b + 1) as nat == b as nat + 1
  {
  }

  /** The byte that stands for a number, counted up from zero. */
  function ByteOf(n: nat): (b: byte)
    requires n < 256
    ensures b as nat == n
  {
    if n == 0 then 0
    else
      NextByte(ByteOf(n - 1));
      ByteOf(n - 1) + 1
  }
}
