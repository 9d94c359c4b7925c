/** The two checksums of a PC-Link frame, and the algebra the library relies on:
    the CRC-16 register is linear over GF(2) and never forgets a difference. */
module Crc {
  import opened Bits

  /** One bit of the CRC-16: shift, and fold the polynomial in when bit 15 was set.
      The register is never masked, so it is an unbounded integer. */
  function ShiftBit(crc: nat): nat {
    if crc / 0x8000 % 2 == 1 then Xor(2 * crc, 0x1021) else 2 * crc
  }

  function ShiftBits(crc: nat, n: nat): nat
    decreases n, crc
  {
    if n == 0 then crc else ShiftBits(ShiftBit(crc), n - 1)
  }

  /** `byte << 8` */
  function Top(b: Byte): nat {
    256 * (b as int)
  }

  function TakeByte(crc: nat, b: Byte): nat {
    ShiftBits(Xor(crc, Top(b)), 8)
  }

  function Register(crc: nat, data: seq<Byte>): nat
    decreases |data|
  {
    if data == [] then crc else Register(TakeByte(crc, data[0]), data[1..])
  }

  function Crc16(data: seq<Byte>): (r: nat)
    ensures r < 0x10000
  {
    Register(0xFFFF, data) % 0x10000
  }

  /** `calc_crc1`, on the bytes its hex argument spells. */
  method CalcCrc1(data: seq<Byte>) returns (crc: nat)
    ensures crc == Crc16(data)
  {
    crc := 0xFFFF;
    for i := 0 to |data|
      invariant Register(crc, data[i..]) == Register(0xFFFF, data)
    {
      crc := Xor(crc, Top(data[i]));
      for j := 0 to 8
        invariant Register(ShiftBits(crc, 8 - j), data[i + 1..]) == Register(0xFFFF, data)
      {
        crc := if crc / 0x8000 % 2 == 1 then Xor(2 * crc, 0x1021) else 2 * crc;
      }
    }
    crc := crc % 0x10000;
  }

  /** One bit of the CRC-8 over the text of a frame, unmasked as well. */
  function ShiftBit8(crc: nat): nat {
    if crc % 256 / 128 == 1 then Xor(2 * crc, 0x99) else 2 * crc
  }

  function ShiftBits8(crc: nat, n: nat): nat
    decreases n, crc
  {
    if n == 0 then crc else ShiftBits8(ShiftBit8(crc), n - 1)
  }

  function Register8(crc: nat, text: string): nat
    decreases |text|
  {
    if text == "" then crc else Register8(ShiftBits8(Xor(crc, text[0] as nat), 8), text[1..])
  }

  function Crc8(text: string): (r: nat)
    ensures r < 256
  {
    Register8(0, text) % 256
  }

  /** `calc_crc2` */
  method CalcCrc2(text: string) returns (crc: nat)
    ensures crc == Crc8(text)
  {
    crc := 0;
    for i := 0 to |text|
      invariant Register8(crc, text[i..]) == Register8(0, text)
    {
      crc := Xor(crc, text[i] as nat);
      for j := 0 to 8
        invariant Register8(ShiftBits8(crc, 8 - j), text[i + 1..]) == Register8(0, text)
      {
        crc := if crc % 256 / 128 == 1 then Xor(2 * crc, 0x99) else 2 * crc;
      }
    }
    crc := crc % 256;
  }

  // ---- linearity over GF(2) -------------------------------------------------------

  function XorByte(a: Byte, b: Byte): (r: Byte)
    ensures r == Xor(a, b)
  {
    Pow2Values();
    XorBound(a, b, 8);
    Xor(a, b)
  }

  function XorSeq(a: seq<Byte>, b: seq<Byte>): (d: seq<Byte>)
    requires |a| == |b|
    ensures |d| == |a|
    ensures forall i :: 0 <= i < |a| ==> d[i] == Xor(a[i], b[i])
  {
    seq(|a|, i requires 0 <= i < |a| => XorByte(a[i], b[i]))
  }

  function Zeros(n: nat): (z: seq<Byte>)
    ensures |z| == n && forall i :: 0 <= i < n ==> z[i] == 0
  {
    seq(n, _ => 0)
  }

  lemma XorTwice(a: nat, b: nat)
    ensures Xor(2 * a, 2 * b) == 2 * Xor(a, b)
  {
    if a != 0 || b != 0 {
      XorUnfold(2 * a, 2 * b);
    }
  }

  lemma {:induction false} XorScaled(a: nat, b: nat, k: nat)
    ensures Xor(Pow2(k) * a, Pow2(k) * b) == Pow2(k) * Xor(a, b)
    decreases k
  {
    hide Xor;
    if k > 0 {
      var p := Pow2(k - 1);
      XorScaled(a, b, k - 1);
      XorTwice(p * a, p * b);
      assert Pow2(k) * a == 2 * (p * a) && Pow2(k) * b == 2 * (p * b);
      assert Pow2(k) * Xor(a, b) == 2 * (p * Xor(a, b));
    }
  }

  lemma XorTop(a: Byte, b: Byte)
    ensures Xor(Top(a), Top(b)) == Top(XorByte(a, b))
  {
    hide Xor;
    Pow2Values();
    XorScaled(a, b, 8);
  }

  lemma ShiftBitLinear(a: nat, b: nat)
    ensures ShiftBit(Xor(a, b)) == Xor(ShiftBit(a), ShiftBit(b))
  {
    XorMask16(a, b);
    XorUnfold(a / 0x8000, b / 0x8000);
    XorTwice(a, b);
    XorZero(2 * a);
    XorZero(2 * b);
    XorAssoc(2 * a, 2 * b, 0x1021);
    XorSwap(2 * a, 0x1021, 2 * b, 0x1021);
    XorSelf(0x1021);
    XorZero(Xor(2 * a, 2 * b));
    XorComm(2 * b, 0x1021);
    XorAssoc(2 * a, 0x1021, 2 * b);
  }

  lemma {:induction false} ShiftBitsLinear(a: nat, b: nat, n: nat)
    ensures ShiftBits(Xor(a, b), n) == Xor(ShiftBits(a, n), ShiftBits(b, n))
    decreases n
  {
    if n > 0 {
      ShiftBitLinear(a, b);
      ShiftBitsLinear(ShiftBit(a), ShiftBit(b), n - 1);
    }
  }

  lemma {:induction false} RegisterLinear(a: nat, b: nat, x: seq<Byte>, y: seq<Byte>)
    requires |x| == |y|
    ensures Register(Xor(a, b), XorSeq(x, y)) == Xor(Register(a, x), Register(b, y))
    decreases |x|
  {
    hide Xor;
    if x != [] {
      var d := XorSeq(x, y);
      XorSwap(a, b, Top(x[0]), Top(y[0]));
      XorTop(x[0], y[0]);
      ShiftBitsLinear(Xor(a, Top(x[0])), Xor(b, Top(y[0])), 8);
      assert d[1..] == XorSeq(x[1..], y[1..]);
      RegisterLinear(TakeByte(a, x[0]), TakeByte(b, y[0]), x[1..], y[1..]);
    }
  }

  /** For messages of one length the CRC-16 is affine: the CRC of a changed message
      follows from the old CRC and the change alone. */
  lemma CrcAffine(a: seq<Byte>, d: seq<Byte>)
    requires |a| == |d|
    ensures Crc16(XorSeq(a, d)) == Xor(Xor(Crc16(a), Crc16(d)), Crc16(Zeros(|a|)))
  {
    hide Xor;
    var z := Zeros(|a|);
    var m := XorSeq(a, d);
    assert XorSeq(m, z) == m by {
      forall i | 0 <= i < |a| ensures XorSeq(m, z)[i] == m[i] { XorZero(m[i]); }
    }
    var ra, rd, rz := Register(0xFFFF, a), Register(0xFFFF, d), Register(0xFFFF, z);
    XorSelf(0xFFFF);
    XorZero(0xFFFF);
    RegisterLinear(0xFFFF, 0xFFFF, a, d);
    RegisterLinear(0, 0xFFFF, m, z);
    XorMask16(ra, rd);
    XorMask16(Xor(ra, rd), rz);
  }

  // ---- the unbounded register behaves as a sixteen-bit one ------------------------

  lemma ShiftBitLow(c: nat)
    ensures ShiftBit(c) % 0x10000 == ShiftBit(c % 0x10000) % 0x10000
  {
    var r := c % 0x10000;
    assert c / 0x8000 % 2 == r / 0x8000 % 2;
    assert 2 * c % 0x10000 == 2 * r % 0x10000;
    XorMask16(2 * c, 0x1021);
    XorMask16(2 * r, 0x1021);
  }

  lemma {:induction false} ShiftBitsLow(c: nat, n: nat)
    ensures ShiftBits(c, n) % 0x10000 == ShiftBits(c % 0x10000, n) % 0x10000
    decreases n
  {
    if n > 0 {
      ShiftBitLow(c);
      ShiftBitsLow(ShiftBit(c), n - 1);
      ShiftBitsLow(ShiftBit(c % 0x10000), n - 1);
    }
  }

  /** The textbook register: sixteen bits, masked after every byte. */
  function MaskedRegister(crc: nat, data: seq<Byte>): nat
    decreases |data|
  {
    if data == [] then crc else MaskedRegister(TakeByte(crc, data[0]) % 0x10000, data[1..])
  }

  lemma TakeByteLow(c: nat, b: Byte)
    ensures TakeByte(c, b) % 0x10000 == TakeByte(c % 0x10000, b) % 0x10000
  {
    hide Xor;
    var x, y := Xor(c, Top(b)), Xor(c % 0x10000, Top(b));
    XorMask16(c, Top(b));
    XorMask16(c % 0x10000, Top(b));
    assert x % 0x10000 == y % 0x10000;
    ShiftBitsLow(x, 8);
    ShiftBitsLow(y, 8);
  }

  lemma {:induction false} UnboundedRegisterIsSixteenBit(c: nat, data: seq<Byte>)
    ensures Register(c, data) % 0x10000 == MaskedRegister(c % 0x10000, data) % 0x10000
    decreases |data|
  {
    hide Xor, ShiftBits;
    if data != [] {
      TakeByteLow(c, data[0]);
      UnboundedRegisterIsSixteenBit(TakeByte(c, data[0]), data[1..]);
    }
  }

  // ---- error detection -----------------------------------------------------------------

  /** A non-zero register stays non-zero: the polynomial's lowest bit is set, so the
      bit shifted out always comes back. */
  lemma ShiftBitKeepsDifference(c: nat)
    requires c % 0x10000 != 0
    ensures ShiftBit(c) % 0x10000 != 0
  {
    hide Xor;
    if c / 0x8000 % 2 == 1 {
      XorUnfold(2 * c, 0x1021);
      assert ShiftBit(c) % 0x10000 % 2 == ShiftBit(c) % 2 == 1;
    } else {
      assert ShiftBit(c) % 0x10000 == 2 * (c % 0x8000) && c % 0x8000 != 0;
    }
  }

  lemma {:induction false} ShiftBitsKeepsDifference(c: nat, n: nat)
    requires c % 0x10000 != 0
    ensures ShiftBits(c, n) % 0x10000 != 0
    decreases n
  {
    if n > 0 {
      ShiftBitKeepsDifference(c);
      ShiftBitsKeepsDifference(ShiftBit(c), n - 1);
    }
  }

  /** Each byte step is injective in the register. */
  lemma TakeByteInjective(c1: nat, c2: nat, b: Byte)
    requires TakeByte(c1, b) % 0x10000 == TakeByte(c2, b) % 0x10000
    ensures c1 % 0x10000 == c2 % 0x10000
  {
    hide Xor;
    var x, y := Xor(c1, Top(b)), Xor(c2, Top(b));
    ShiftBitsLinear(x, y, 8);
    XorMask16(ShiftBits(x, 8), ShiftBits(y, 8));
    XorSelf(ShiftBits(x, 8) % 0x10000);
    if Xor(x, y) % 0x10000 != 0 {
      ShiftBitsKeepsDifference(Xor(x, y), 8);
      assert false;
    }
    XorSwap(c1, Top(b), c2, Top(b));
    XorSelf(Top(b));
    XorZero(Xor(c1, c2));
    XorMask16(c1, c2);
    XorIsZero(c1 % 0x10000, c2 % 0x10000);
  }

  lemma {:induction false} RegisterInjective(c1: nat, c2: nat, data: seq<Byte>)
    requires Register(c1, data) % 0x10000 == Register(c2, data) % 0x10000
    ensures c1 % 0x10000 == c2 % 0x10000
    decreases |data|
  {
    if data != [] {
      RegisterInjective(TakeByte(c1, data[0]), TakeByte(c2, data[0]), data[1..]);
      TakeByteInjective(c1, c2, data[0]);
    }
  }

  lemma {:induction false} RegisterConcat(c: nat, x: seq<Byte>, y: seq<Byte>)
    ensures Register(c, x + y) == Register(Register(c, x), y)
    decreases |x|
  {
    if x == [] {
      assert x + y == y;
    } else {
      assert (x + y)[1..] == x[1..] + y;
      RegisterConcat(TakeByte(c, x[0]), x[1..], y);
    }
  }

  lemma ShiftsUnfold(c: nat, n: nat)
    requires n > 0
    ensures ShiftBits(c, n) == ShiftBits(ShiftBit(c), n - 1)
  {
  }

  lemma HalfShift(v: nat, n: nat)
    requires n > 0
    ensures v * Pow2(n) == 2 * v * Pow2(n - 1) >= 2 * v
  {
    assert v * (2 * Pow2(n - 1)) == 2 * v * Pow2(n - 1);
    assert 2 * v * Pow2(n - 1) == 2 * v + 2 * v * (Pow2(n - 1) - 1);
  }

  /** Eight shifts of a byte in the low half feed nothing back. */
  lemma {:induction false} ShiftsWithoutFeedback(v: nat, n: nat)
    requires n <= 8 && v * Pow2(n) < 0x10000
    ensures ShiftBits(v, n) == v * Pow2(n)
    decreases n
  {
    if n > 0 {
      hide Xor, Pow2;
      HalfShift(v, n);
      assert v / 0x8000 == 0;
      hide ShiftBits;
      ShiftsUnfold(v, n);
      ShiftsWithoutFeedback(2 * v, n - 1);
    } else {
      assert Pow2(0) == 1;
    }
  }

  lemma {:induction false} ShiftBitsAdd(c: nat, m: nat, n: nat)
    ensures ShiftBits(c, m + n) == ShiftBits(ShiftBits(c, m), n)
    decreases m
  {
    if m > 0 {
      ShiftBitsAdd(ShiftBit(c), m - 1, n);
    }
  }

  /** A change within two adjacent bytes reaches the register as a sixteen-bit burst. */
  lemma BurstReachesRegister(d1: Byte, d2: Byte)
    requires d1 != 0 || d2 != 0
    ensures TakeByte(TakeByte(0, d1), d2) % 0x10000 != 0
  {
    hide Xor;
    Pow2Values();
    XorZero(Top(d1));
    ShiftsWithoutFeedback(d2, 8);
    var burst := Xor(Top(d1), d2);
    ShiftBitsLinear(Top(d1), d2, 8);
    assert Xor(TakeByte(0, d1), Top(d2)) == ShiftBits(burst, 8);
    XorBound(Top(d1), d2, 16);
    if burst == 0 {
      XorIsZero(Top(d1), d2);
      assert false;
    }
    ShiftBitsKeepsDifference(burst, 8);
    ShiftBitsKeepsDifference(ShiftBits(burst, 8), 8);
  }

  lemma RegisterPair(c: nat, a: Byte, b: Byte)
    ensures Register(c, [a, b]) == TakeByte(TakeByte(c, a), b)
  {
    hide TakeByte;
    var t := [a, b][1..];
    assert t == [b] && t[1..] == [];
    assert Register(TakeByte(TakeByte(c, a), b), []) == TakeByte(TakeByte(c, a), b);
    assert Register(TakeByte(c, a), t) == TakeByte(TakeByte(c, a), b);
  }

  /** Changing any one byte, or any two adjacent ones, changes the CRC-16. */
  lemma CrcDetectsAdjacentChange(head: seq<Byte>, x: seq<Byte>, y: seq<Byte>, tail: seq<Byte>)
    requires |x| == |y| == 2 && x != y
    ensures Crc16(head + x + tail) != Crc16(head + y + tail)
  {
    hide Xor;
    assert x == [x[0], x[1]] && y == [y[0], y[1]];
    var c := Register(0xFFFF, head);
    RegisterConcat(0xFFFF, head + x, tail);
    RegisterConcat(0xFFFF, head, x);
    RegisterConcat(0xFFFF, head + y, tail);
    RegisterConcat(0xFFFF, head, y);
    var cx, cy := Register(c, x), Register(c, y);
    if cx % 0x10000 == cy % 0x10000 {
      var d := XorSeq(x, y);
      RegisterLinear(c, c, x, y);
      XorSelf(c);
      XorMask16(cx, cy);
      XorSelf(cx % 0x10000);
      RegisterPair(0, d[0], d[1]);
      assert d == [d[0], d[1]];
      if d[0] == 0 && d[1] == 0 {
        XorIsZero(x[0], y[0]);
        XorIsZero(x[1], y[1]);
        assert false;
      }
      BurstReachesRegister(d[0], d[1]);
      assert false;
    }
    if Crc16(head + x + tail) == Crc16(head + y + tail) {
      RegisterInjective(cx, cy, tail);
      assert false;
    }
  }

  lemma CrcDetectsLastByteChange(head: seq<Byte>, a: Byte, b: Byte)
    requires a != b
    ensures Crc16(head + [a]) != Crc16(head + [b])
  {
    hide Xor;
    var c := Register(0xFFFF, head);
    RegisterConcat(0xFFFF, head, [a]);
    RegisterConcat(0xFFFF, head, [b]);
    RegisterLinear(c, c, [a], [b]);
    var d := XorSeq([a], [b]);
    XorSelf(c);
    if d[0] == 0 {
      XorIsZero(a, b);
      assert false;
    }
    XorZero(Top(d[0]));
    ShiftBitsKeepsDifference(Top(d[0]), 8);
    assert Register(0, d) == TakeByte(0, d[0]) by { assert d == [d[0]]; }
    XorMask16(Register(c, [a]), Register(c, [b]));
    if Crc16(head + [a]) == Crc16(head + [b]) {
      XorSelf(Register(c, [a]) % 0x10000);
      assert false;
    }
  }
}
