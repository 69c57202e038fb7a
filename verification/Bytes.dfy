/** Bytes and 16-bit words as numbers, and the bits they stand for. */
module Bytes {

  type Byte = n: int | 0 <= n < 0x100
  type Word = n: int | 0 <= n < 0x1_0000

  /** The eight bits of a byte, high nibble and low nibble. */
  function Bits(byte: Byte): bv8 {
    Join(Nibble(byte / 16), Nibble(byte % 16))
  }

  function Nibble(n: int): bv8
    requires 0 <= n < 16
  {
    n as bv8
  }

  function Join(high: bv8, low: bv8): bv8 { (high << 4) | low }

  function ToWord(bits: bv16): Word { bits as Word }

  lemma NibbleRoundTrip(n: int)
    requires 0 <= n < 16
    ensures (n as bv8) as int == n
  {}

  lemma NibbleIsSmall(n: int)
    requires 0 <= n < 16
    ensures Nibble(n) < 16
  {
    NibbleRoundTrip(n);
    assert n as bv8 < 16;
  }

  lemma NibbleInjective(a: int, b: int)
    requires 0 <= a < 16 && 0 <= b < 16 && Nibble(a) == Nibble(b)
    ensures a == b
  {
    NibbleRoundTrip(a);
    NibbleRoundTrip(b);
    assert a as bv8 == b as bv8;
  }

  lemma JoinInjective(x: bv8, y: bv8, u: bv8, v: bv8)
    requires x < 16 && y < 16 && u < 16 && v < 16 && Join(x, y) == Join(u, v)
    ensures x == u && y == v
  {}

  lemma BitsInjective(a: Byte, b: Byte)
    requires Bits(a) == Bits(b)
    ensures a == b
  {
    hide Nibble, Join;
    NibbleIsSmall(a / 16);
    NibbleIsSmall(a % 16);
    NibbleIsSmall(b / 16);
    NibbleIsSmall(b % 16);
    JoinInjective(Nibble(a / 16), Nibble(a % 16), Nibble(b / 16), Nibble(b % 16));
    NibbleInjective(a / 16, b / 16);
    NibbleInjective(a % 16, b % 16);
  }

  lemma WordInjective(a: bv16, b: bv16)
    requires ToWord(a) == ToWord(b)
    ensures a == b
  {
    WordRoundTrip(a);
    WordRoundTrip(b);
  }

  lemma WordRoundTrip(a: bv16)
    ensures ToWord(a) as bv16 == a
  {}
}
