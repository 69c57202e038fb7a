/** The CRC-16/X.25 that closes every GT06 frame, and what it can detect.

    The polynomial, initial value and complement are those of the 16-bit FCS of
    appendix C.2 of RFC 1662; the GT06 frame sends the result high byte first. */
module Crc16 {

  import opened Bytes

  function Xor(a: bv16, b: bv16): bv16 { a ^ b }

  function Widen(byte: bv8): bv16 { byte as bv16 }

  /** One turn of the bit loop. */
  function ShiftBit(crc: bv16): bv16 {
    if crc & 0x0001 != 0 then (crc >> 1) ^ 0x8408 else crc >> 1
  }

  function ShiftBits(crc: bv16, n: nat): bv16 {
    if n == 0 then crc else ShiftBit(ShiftBits(crc, n - 1))
  }

  function Update(crc: bv16, byte: bv8): bv16 {
    ShiftBits(Xor(crc, Widen(byte)), 8)
  }

  /** The register after the bytes of `data`, starting from `crc`. */
  function Register(crc: bv16, data: seq<Byte>): bv16 {
    if data == [] then crc
    else Update(Register(crc, data[..|data| - 1]), Bits(data[|data| - 1]))
  }

  function Complement(crc: bv16): bv16 { !crc }

  function ChecksumBits(data: seq<Byte>): bv16 {
    Complement(Register(0xFFFF, data))
  }

  /** The checksum of bytes still to come, front first. */
  function ChecksumFrom(crc: bv16, data: seq<Byte>): Word
    decreases |data|
  {
    if data == [] then ToWord(Complement(crc)) else ChecksumFrom(Update(crc, Bits(data[0])), data[1..])
  }

  function Checksum(data: seq<Byte>): Word {
    ChecksumFrom(0xFFFF, data)
  }

  method Crc16X25(data: seq<Byte>) returns (checksum: Word)
    ensures checksum == Checksum(data)
  {
    hide Xor, Widen, Bits, ShiftBit, Complement, ToWord;
    var crc: bv16 := 0xFFFF;
    for i := 0 to |data|
      invariant crc == Register(0xFFFF, data[..i])
    {
      assert data[..i + 1][..i] == data[..i];
      XorByte(crc, Bits(data[i]));
      crc := crc ^ (Bits(data[i]) as bv16);
      ghost var start := crc;
      for bit := 0 to 8
        invariant crc == ShiftBits(start, bit)
      {
        ShiftBitCases(crc);
        if crc & 0x0001 != 0 {
          crc := (crc >> 1) ^ 0x8408;
        } else {
          crc := crc >> 1;
        }
      }
    }
    assert data[..|data|] == data;
    ComplementIsNot(crc);
    ChecksumIsRegister(data);
    checksum := ToWord(!crc);
  }

  // The bit operations, one at a time.

  lemma XorByte(crc: bv16, byte: bv8)
    ensures crc ^ (byte as bv16) == Xor(crc, Widen(byte))
  {}

  lemma ShiftBitCases(crc: bv16)
    ensures crc & 0x0001 != 0 ==> (crc >> 1) ^ 0x8408 == ShiftBit(crc)
    ensures crc & 0x0001 == 0 ==> crc >> 1 == ShiftBit(crc)
  {}

  lemma ComplementIsNot(crc: bv16)
    ensures !crc == Complement(crc)
  {}

  lemma WidenIs(byte: bv8)
    ensures Widen(byte) == byte as bv16
  {}

  // ---- The register is linear and reversible ----

  lemma ShiftBitLinear(a: bv16, b: bv16)
    ensures ShiftBit(Xor(a, b)) == Xor(ShiftBit(a), ShiftBit(b))
  {
    ShiftBitLinearBits(a, b);
  }

  lemma ShiftBitLinearBits(a: bv16, b: bv16)
    ensures ShiftBit(a ^ b) == ShiftBit(a) ^ ShiftBit(b)
  {
    if a & 1 == 0 {
      if b & 1 == 0 {} else {}
    } else {
      if b & 1 == 0 {} else {}
    }
  }

  lemma {:induction false} ShiftBitsLinear(a: bv16, b: bv16, n: nat)
    ensures ShiftBits(Xor(a, b), n) == Xor(ShiftBits(a, n), ShiftBits(b, n))
  {
    hide Xor, ShiftBit;
    if n > 0 {
      ShiftBitsLinear(a, b, n - 1);
      ShiftBitLinear(ShiftBits(a, n - 1), ShiftBits(b, n - 1));
    }
  }

  lemma ShiftBitInjective(a: bv16, b: bv16)
    requires ShiftBit(a) == ShiftBit(b)
    ensures a == b
  {}

  lemma {:induction false} ShiftBitsInjective(a: bv16, b: bv16, n: nat)
    requires ShiftBits(a, n) == ShiftBits(b, n)
    ensures a == b
  {
    hide ShiftBit;
    if n > 0 {
      ShiftBitInjective(ShiftBits(a, n - 1), ShiftBits(b, n - 1));
      ShiftBitsInjective(a, b, n - 1);
    }
  }

  /** Exclusive or behaves as a difference. */
  lemma XorLaws(a: bv16, b: bv16, c: bv16)
    ensures Xor(a, b) == 0 <==> a == b
    ensures Xor(a, c) == Xor(b, c) <==> a == b
  {
    if a != b {
      XorCancel(a, b, c);
    }
  }

  lemma XorCancel(a: bv16, b: bv16, c: bv16)
    ensures a ^ c == b ^ c <==> a == b
    ensures a ^ b == 0 <==> a == b
  {}

  lemma XorShuffle(a: bv16, b: bv16, x: bv8, y: bv8)
    ensures Xor(Xor(a, Widen(x)), Xor(b, Widen(y))) == Xor(Xor(a, b), Widen(x ^ y))
  {
    hide Xor, Widen;
    XorMedial(a, Widen(x), b, Widen(y));
    WidenXor(x, y);
  }

  lemma XorMedial(a: bv16, b: bv16, c: bv16, d: bv16)
    ensures Xor(Xor(a, b), Xor(c, d)) == Xor(Xor(a, c), Xor(b, d))
  {
    hide Xor;
    XorAssociative(Xor(a, b), c, d);
    XorAssociative(a, b, c);
    XorCommutative(b, c);
    XorAssociative(a, c, b);
    XorAssociative(Xor(a, c), b, d);
  }

  lemma XorAssociative(a: bv16, b: bv16, c: bv16)
    ensures Xor(Xor(a, b), c) == Xor(a, Xor(b, c))
  {}

  lemma XorCommutative(a: bv16, b: bv16)
    ensures Xor(a, b) == Xor(b, a)
  {}

  lemma WidenXor(x: bv8, y: bv8)
    ensures Xor(Widen(x), Widen(y)) == Widen(x ^ y)
  {}

  /** Differences travel through the register on their own. */
  lemma UpdateLinear(a: bv16, b: bv16, x: bv8, y: bv8)
    ensures Xor(Update(a, x), Update(b, y)) == Update(Xor(a, b), x ^ y)
  {
    hide Xor, Widen, ShiftBits;
    XorShuffle(a, b, x, y);
    ShiftBitsLinear(Xor(a, Widen(x)), Xor(b, Widen(y)), 8);
  }

  lemma UpdateInjective(a: bv16, b: bv16, byte: bv8)
    requires Update(a, byte) == Update(b, byte)
    ensures a == b
  {
    hide Xor, Widen, ShiftBits;
    ShiftBitsInjective(Xor(a, Widen(byte)), Xor(b, Widen(byte)), 8);
    XorLaws(a, b, Widen(byte));
  }

  lemma {:induction false} RegisterConcat(crc: bv16, a: seq<Byte>, b: seq<Byte>)
    ensures Register(crc, a + b) == Register(Register(crc, a), b)
  {
    hide Update, Bits;
    if b == [] {
      assert a + b == a;
    } else {
      assert (a + b)[..|a + b| - 1] == a + b[..|b| - 1];
      RegisterConcat(crc, a, b[..|b| - 1]);
    }
  }

  lemma {:induction false} ChecksumFromRegister(crc: bv16, data: seq<Byte>)
    ensures ChecksumFrom(crc, data) == ToWord(Complement(Register(crc, data)))
    decreases |data|
  {
    hide Update, Bits, ToWord, Complement;
    if data != [] {
      RegisterConcat(crc, [data[0]], data[1..]);
      assert data == [data[0]] + data[1..];
      assert [data[0]][..0] == [] && Register(crc, []) == crc;
      ChecksumFromRegister(Update(crc, Bits(data[0])), data[1..]);
    }
  }

  /** Front first or back first, the checksum is the complement of the register. */
  lemma ChecksumIsRegister(data: seq<Byte>)
    ensures Checksum(data) == ToWord(ChecksumBits(data))
  {
    hide Register, ToWord, Complement;
    ChecksumFromRegister(0xFFFF, data);
  }

  lemma {:induction false} RegisterInjective(a: bv16, b: bv16, data: seq<Byte>)
    requires Register(a, data) == Register(b, data)
    ensures a == b
  {
    hide Update, Bits;
    if data != [] {
      var init, last := data[..|data| - 1], Bits(data[|data| - 1]);
      UpdateInjective(Register(a, init), Register(b, init), last);
      RegisterInjective(a, b, init);
    }
  }

  // ---- A byte at a time ----

  function Shift8(crc: bv16): bv16 {
    ShiftBit(ShiftBit(ShiftBit(ShiftBit(ShiftBit(ShiftBit(ShiftBit(ShiftBit(crc))))))))
  }

  lemma ShiftBitsIsShift8(crc: bv16)
    ensures ShiftBits(crc, 8) == Shift8(crc)
  {
    hide ShiftBit;
    assert ShiftBits(crc, 0) == crc;
    assert ShiftBits(crc, 1) == ShiftBit(crc);
    assert ShiftBits(crc, 2) == ShiftBit(ShiftBit(crc));
    assert ShiftBits(crc, 4) == ShiftBit(ShiftBit(ShiftBits(crc, 2)));
    assert ShiftBits(crc, 6) == ShiftBit(ShiftBit(ShiftBits(crc, 4)));
  }

  lemma UpdateIsShift8(crc: bv16, byte: bv8)
    ensures Update(crc, byte) == Shift8(Xor(crc, Widen(byte)))
  {
    hide Xor, Widen, ShiftBits, Shift8;
    ShiftBitsIsShift8(Xor(crc, Widen(byte)));
  }

  lemma Shift8Injective(a: bv16, b: bv16)
    requires Shift8(a) == Shift8(b)
    ensures a == b
  {
    hide ShiftBits, Shift8;
    ShiftBitsIsShift8(a);
    ShiftBitsIsShift8(b);
    ShiftBitsInjective(a, b, 8);
  }

  function High(byte: bv8): bv16 { (byte as bv16) << 8 }

  lemma HighByteShiftsDown(byte: bv8)
    ensures Shift8(High(byte)) == Widen(byte)
  {}

  /** The table-driven form of RFC 1662 takes the same step: `Shift8` of one byte is
      the entry its table holds. */
  lemma TableStep(crc: bv16, byte: bv8)
    ensures Update(crc, byte) == Xor(crc >> 8, Shift8((crc ^ (byte as bv16)) & 0xFF))
  {
    hide Xor, Widen, ShiftBits, Shift8, High;
    var x := Xor(crc, Widen(byte));
    var high := ((crc >> 8) & 0xFF) as bv8;
    var low := (crc ^ (byte as bv16)) & 0xFF;
    SplitBytes(crc, byte);
    UpdateIsShift8(crc, byte);
    ShiftBitsIsShift8(x);
    ShiftBitsIsShift8(High(high));
    ShiftBitsIsShift8(low);
    ShiftBitsLinear(High(high), low, 8);
    HighByteShiftsDown(high);
  }

  lemma SplitBytes(crc: bv16, byte: bv8)
    ensures var high := ((crc >> 8) & 0xFF) as bv8;
            && Xor(crc, Widen(byte)) == Xor(High(high), (crc ^ (byte as bv16)) & 0xFF)
            && Widen(high) == crc >> 8
  {
    SplitBits(crc, byte);
  }

  lemma SplitBits(crc: bv16, byte: bv8)
    ensures var high := ((crc >> 8) & 0xFF) as bv8;
            && crc ^ (byte as bv16) == ((high as bv16) << 8) ^ ((crc ^ (byte as bv16)) & 0xFF)
            && high as bv16 == crc >> 8
  {}

  // ---- Error detection ----

  /** The `k` lowest bits of a byte. */
  function LowBits(k: nat): bv8
    requires k <= 8
  {
    [0x00, 0x01, 0x03, 0x07, 0x0F, 0x1F, 0x3F, 0x7F, 0xFF][k]
  }

  /** The bits in which the three-byte windows `a` and `b` differ lie within the sixteen
      consecutive bits that start `k` bits into the window. Bits count from the lowest of
      each byte, the order in which the register takes them. */
  predicate DiffersWithin(a: seq<Byte>, b: seq<Byte>, k: nat)
    requires |a| == |b| == 3 && k <= 8
  {
    && Difference(a[0], b[0]) & LowBits(k) == 0
    && Difference(a[2], b[2]) & !LowBits(k) == 0
  }

  function Difference(a: Byte, b: Byte): bv8 { Bits(a) ^ Bits(b) }

  /** `a` and `b` are different windows whose difference is a burst of at most 16 bits. */
  ghost predicate Burst(a: seq<Byte>, b: seq<Byte>) {
    |a| == |b| == 3 && a != b && exists k :: 0 <= k <= 8 && DiffersWithin(a, b, k)
  }

  /** One changed byte, or two adjacent ones, is such a burst. */
  lemma AdjacentBytesAreBurst(a: seq<Byte>, b: seq<Byte>)
    requires |a| == |b| == 3 && a != b && (a[0] == b[0] || a[2] == b[2])
    ensures Burst(a, b)
  {
    AdjacentBits(Bits(a[0]), Bits(b[0]));
    AdjacentBits(Bits(a[2]), Bits(b[2]));
    assert DiffersWithin(a, b, if a[2] == b[2] then 0 else 8);
  }

  lemma AdjacentBits(x: bv8, y: bv8)
    ensures (x ^ y) & 0x00 == 0 && (x ^ x) & !0x00 == 0
    ensures (x ^ x) & 0xFF == 0 && (x ^ y) & !0xFF == 0
  {}

  lemma BurstCore(x: bv8, k: nat)
    requires k <= 8
    requires x & LowBits(k) == 0 && (Shift8(x as bv16) >> 8) & !(LowBits(k) as bv16) == 0
    ensures x == 0
  {
    if k == 0 {} else if k == 1 {} else if k == 2 {} else if k == 3 {}
    else if k == 4 {} else if k == 5 {} else if k == 6 {} else if k == 7 {} else {}
  }

  /** A burst that enters an empty register does not cancel itself out. */
  lemma BurstLeavesResidue(x: bv8, y: bv8, z: bv8, k: nat)
    requires k <= 8 && x & LowBits(k) == 0 && z & !LowBits(k) == 0
    requires Update(Update(Update(0, x), y), z) == 0
    ensures x == y == z == 0
  {
    hide Xor, Widen, High, ShiftBits, Shift8, Update;
    var s := Update(0, x);
    UpdateToZero(Update(s, y), z);
    UpdateIsShift8(s, y);
    HighByteShiftsDown(z);
    Shift8Injective(Xor(s, Widen(y)), High(z));
    UpdateIsShift8(0, x);
    XorFromZero(x);
    WidenIs(x);
    WindowBits(s, y, z, LowBits(k));
    BurstCore(x, k);
    UpdateZero();
    NothingLeft(y, z);
  }

  lemma UpdateZero()
    ensures Update(0, 0) == 0
  {
    hide ShiftBits;
    ShiftBitsIsShift8(0);
  }

  lemma XorFromZero(x: bv8)
    ensures Xor(0, Widen(x)) == Widen(x)
  {}

  lemma UpdateToZero(s: bv16, x: bv8)
    requires Update(s, x) == 0
    ensures s == Widen(x)
  {
    hide Xor, Widen, ShiftBits, Shift8;
    UpdateIsShift8(s, x);
    Shift8OfZero();
    Shift8Injective(Xor(s, Widen(x)), 0);
    XorLaws(s, Widen(x), 0);
  }

  lemma Shift8OfZero()
    ensures Shift8(0) == 0
  {}

  lemma WindowBits(s: bv16, y: bv8, z: bv8, mask: bv8)
    requires Xor(s, Widen(y)) == High(z) && z & !mask == 0
    ensures (s >> 8) & !(mask as bv16) == 0
  {}

  lemma NothingLeft(y: bv8, z: bv8)
    requires Xor(0, Widen(y)) == High(z)
    ensures y == z == 0
  {}

  lemma XorByteZero(a: Byte, b: Byte)
    ensures Difference(a, b) == 0 <==> a == b
  {
    XorBitsZero(Bits(a), Bits(b));
    if Bits(a) == Bits(b) {
      BitsInjective(a, b);
    }
  }

  lemma XorBitsZero(a: bv8, b: bv8)
    ensures a ^ b == 0 <==> a == b
  {}

  lemma RegisterOfThree(r: bv16, a: seq<Byte>)
    requires |a| == 3
    ensures Register(r, a) == Update(Update(Update(r, Bits(a[0])), Bits(a[1])), Bits(a[2]))
  {
    hide Update, Bits;
    assert a[..2][..1] == a[..1];
    assert a[..1][..0] == [];
    assert Register(r, a[..1]) == Update(Register(r, []), Bits(a[0]));
    assert Register(r, a[..2]) == Update(Register(r, a[..1]), Bits(a[1]));
  }

  lemma UpdateDifference(r: bv16, s: bv16, a: Byte, b: Byte)
    ensures Xor(Update(r, Bits(a)), Update(s, Bits(b))) == Update(Xor(r, s), Difference(a, b))
  {
    hide Xor, Update, Bits;
    UpdateLinear(r, s, Bits(a), Bits(b));
  }

  /** The difference of two windows, entered from the same register. */
  lemma WindowsDiffer(r: bv16, a: seq<Byte>, b: seq<Byte>)
    requires Burst(a, b)
    ensures Register(r, a) != Register(r, b)
  {
    hide Xor, Update, Bits, LowBits, Difference;
    if Register(r, a) == Register(r, b) {
      RegisterOfThree(r, a);
      RegisterOfThree(r, b);
      var a1, b1 := Update(r, Bits(a[0])), Update(r, Bits(b[0]));
      var a2, b2 := Update(a1, Bits(a[1])), Update(b1, Bits(b[1]));
      XorLaws(r, r, 0);
      UpdateDifference(r, r, a[0], b[0]);
      UpdateDifference(a1, b1, a[1], b[1]);
      UpdateDifference(a2, b2, a[2], b[2]);
      XorLaws(Register(r, a), Register(r, b), 0);
      XorByteZero(a[0], b[0]);
      XorByteZero(a[1], b[1]);
      XorByteZero(a[2], b[2]);
      assert a[0] == b[0] && a[1] == b[1] && a[2] == b[2] ==> a == b;
      var k :| 0 <= k <= 8 && DiffersWithin(a, b, k);
      BurstLeavesResidue(Difference(a[0], b[0]), Difference(a[1], b[1]), Difference(a[2], b[2]), k);
    }
  }

  /** Every burst error of at most sixteen bits changes the checksum, wherever it falls
      and however long the message is. */
  lemma DetectsBursts(before: seq<Byte>, a: seq<Byte>, b: seq<Byte>, after: seq<Byte>)
    requires Burst(a, b)
    ensures Checksum(before + a + after) != Checksum(before + b + after)
  {
    hide Complement, Update, Bits, Burst, Checksum, ToWord;
    var r := Register(0xFFFF, before);
    WindowsDiffer(r, a, b);
    RegisterConcat(0xFFFF, before, a);
    RegisterConcat(0xFFFF, before, b);
    RegisterConcat(0xFFFF, before + a, after);
    RegisterConcat(0xFFFF, before + b, after);
    ChecksumIsRegister(before + a + after);
    ChecksumIsRegister(before + b + after);
    if Checksum(before + a + after) == Checksum(before + b + after) {
      WordInjective(ChecksumBits(before + a + after), ChecksumBits(before + b + after));
      ComplementInjective(Register(0xFFFF, before + a + after), Register(0xFFFF, before + b + after));
      RegisterInjective(Register(r, a), Register(r, b), after);
    }
  }

  lemma ComplementInjective(a: bv16, b: bv16)
    requires Complement(a) == Complement(b)
    ensures a == b
  {}

  // ---- The residue of RFC 1662 ----

  function LowHalf(c: bv16): bv8 { (c & 0xFF) as bv8 }

  function HighHalf(c: bv16): bv8 { (c >> 8) as bv8 }

  /** After a message and two more bytes the register holds 0xF0B8 exactly when those
      bytes are the message's checksum, low byte first. */
  lemma GoodFcs(data: seq<Byte>, low: Byte, high: Byte)
    ensures Register(0xFFFF, data + [low, high]) == 0xF0B8
       <==> Bits(low) == LowHalf(ChecksumBits(data)) && Bits(high) == HighHalf(ChecksumBits(data))
  {
    hide Update, Complement, Bits, LowHalf, HighHalf;
    var r := Register(0xFFFF, data);
    var c := ChecksumBits(data);
    RegisterConcat(0xFFFF, data, [low, high]);
    RegisterOfTwo(r, low, high);
    Residue(r);
    if Register(r, [low, high]) == 0xF0B8 {
      TwoUpdatesInjective(r, Bits(low), Bits(high), LowHalf(c), HighHalf(c));
    }
  }

  lemma RegisterOfTwo(r: bv16, a: Byte, b: Byte)
    ensures Register(r, [a, b]) == Update(Update(r, Bits(a)), Bits(b))
  {
    hide Update, Bits;
    assert [a, b][..1] == [a];
    assert [a][..0] == [];
    assert Register(r, [a]) == Update(Register(r, []), Bits(a));
  }

  lemma Residue(r: bv16)
    ensures Update(Update(r, LowHalf(Complement(r))), HighHalf(Complement(r))) == 0xF0B8
  {
    hide Shift8, Xor, Widen, ShiftBits, Complement, LowHalf, HighHalf;
    var c := Complement(r);
    UpdateIsShift8(r, LowHalf(c));
    UpdateIsShift8(Update(r, LowHalf(c)), HighHalf(c));
    ResidueBits(r);
  }

  lemma Shift8Linear(a: bv16, b: bv16)
    ensures Shift8(Xor(a, b)) == Xor(Shift8(a), Shift8(b))
  {
    hide ShiftBits, Shift8, Xor;
    ShiftBitsIsShift8(Xor(a, b));
    ShiftBitsIsShift8(a);
    ShiftBitsIsShift8(b);
    ShiftBitsLinear(a, b, 8);
  }

  /** The low byte cancels to ones; the high byte meets its own complement a step later. */
  lemma ResidueBits(r: bv16)
    ensures var c := Complement(r);
            Shift8(Xor(Shift8(Xor(r, Widen(LowHalf(c)))), Widen(HighHalf(c)))) == 0xF0B8
  {
    ResidueParts(r);
    ResidueConstants();
    HighByteShiftsDown(HighHalf(r));
    Shift8Linear(High(HighHalf(r)), 0x00FF);
    hide Xor, Shift8, Widen, High, LowHalf, HighHalf, Complement;
  }

  lemma ResidueParts(r: bv16)
    ensures Xor(r, Widen(LowHalf(Complement(r)))) == Xor(High(HighHalf(r)), 0x00FF)
    ensures Xor(Xor(Widen(HighHalf(r)), 0x0F78), Widen(HighHalf(Complement(r)))) == 0x0F87
  {}

  lemma ResidueConstants()
    ensures Shift8(0x00FF) == 0x0F78 && Shift8(0x0F87) == 0xF0B8
  {}

  lemma TwoUpdatesInjective(r: bv16, x: bv8, y: bv8, u: bv8, v: bv8)
    requires Update(Update(r, x), y) == Update(Update(r, u), v)
    ensures x == u && y == v
  {
    hide Xor, Widen, High, Update, Shift8;
    XorLaws(r, r, 0);
    UpdateLinear(r, r, x, u);
    UpdateLinear(Update(r, x), Update(r, u), y, v);
    XorLaws(Update(Update(r, x), y), Update(Update(r, u), v), 0);
    UpdateToZero(Update(0, x ^ u), y ^ v);
    UpdateIsShift8(0, x ^ u);
    HighByteShiftsDown(y ^ v);
    Shift8Injective(Xor(0, Widen(x ^ u)), High(y ^ v));
    NothingLeft(x ^ u, y ^ v);
    XorBitsZero(x, u);
    XorBitsZero(y, v);
  }

  // ---- The check value of the algorithm ----

  lemma NextByte(crc: bv16, data: seq<Byte>, i: nat, after: bv16)
    requires i < |data| && Update(crc, Bits(data[i])) == after
    ensures ChecksumFrom(crc, data[i..]) == ChecksumFrom(after, data[i + 1..])
  {
    hide Update, Bits;
    assert data[i..][1..] == data[i + 1..];
  }

  lemma DigitBits()
    ensures Bits(0x31) == 0x31 && Bits(0x32) == 0x32 && Bits(0x33) == 0x33 && Bits(0x34) == 0x34 && Bits(0x35) == 0x35
    ensures Bits(0x36) == 0x36 && Bits(0x37) == 0x37 && Bits(0x38) == 0x38 && Bits(0x39) == 0x39
  {}

  lemma DigitSteps()
    ensures Update(0xFFFF, 0x31) == 0x2F8D
    ensures Update(0x2F8D, 0x32) == 0x4D53
    ensures Update(0x4D53, 0x33) == 0x634B
    ensures Update(0x634B, 0x34) == 0x8B13
    ensures Update(0x8B13, 0x35) == 0x44BF
    ensures Update(0x44BF, 0x36) == 0x198D
    ensures Update(0x198D, 0x37) == 0x1AC8
    ensures Update(0x1AC8, 0x38) == 0xF795
    ensures Update(0xF795, 0x39) == 0x6F91
  {
    UpdateIsShift8(0xFFFF, 0x31);
    UpdateIsShift8(0x2F8D, 0x32);
    UpdateIsShift8(0x4D53, 0x33);
    UpdateIsShift8(0x634B, 0x34);
    UpdateIsShift8(0x8B13, 0x35);
    UpdateIsShift8(0x44BF, 0x36);
    UpdateIsShift8(0x198D, 0x37);
    UpdateIsShift8(0x1AC8, 0x38);
    UpdateIsShift8(0xF795, 0x39);
    hide Update;
  }

  /** The nine digits of the published check value of CRC-16/X.25. */
  lemma CheckValue()
    ensures Checksum([0x31, 0x32, 0x33, 0x34, 0x35, 0x36, 0x37, 0x38, 0x39]) == 0x906E
  {
    DigitBits();
    DigitSteps();
    hide Update, Bits;
    var digits: seq<Byte> := [0x31, 0x32, 0x33, 0x34, 0x35, 0x36, 0x37, 0x38, 0x39];
    assert digits[0..] == digits;
    NextByte(0xFFFF, digits, 0, 0x2F8D);
    NextByte(0x2F8D, digits, 1, 0x4D53);
    NextByte(0x4D53, digits, 2, 0x634B);
    NextByte(0x634B, digits, 3, 0x8B13);
    NextByte(0x8B13, digits, 4, 0x44BF);
    NextByte(0x44BF, digits, 5, 0x198D);
    NextByte(0x198D, digits, 6, 0x1AC8);
    NextByte(0x1AC8, digits, 7, 0xF795);
    NextByte(0xF795, digits, 8, 0x6F91);
    LastComplement();
  }

  lemma LastComplement()
    ensures ToWord(Complement(0x6F91)) == 0x906E
  {}
}
