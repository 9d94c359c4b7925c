/** What the checksums are: remainders of the message by a generator polynomial over GF(2). A number
    stands for the polynomial whose coefficients are its bits. */
module CrcRemainder {
  import opened Bits
  import opened Crc

  /** The product of two polynomials. */
  function ClMul(a: nat, b: nat): nat {
    if a == 0 then 0 else Xor(if a % 2 == 1 then b else 0, 2 * ClMul(a / 2, b))
  }

  /** Two polynomials leave the same remainder: they differ by a multiple of the generator. */
  ghost predicate Congruent(v: nat, r: nat, g: nat) {
    exists q :: Multiple(v, r, g, q)
  }

  predicate Multiple(v: nat, r: nat, g: nat, q: nat) {
    v == Xor(ClMul(q, g), r)
  }

  // ---- multiples of the generator -----------------------------------------------------------------

  lemma ClMulTwice(a: nat, g: nat)
    ensures ClMul(2 * a, g) == 2 * ClMul(a, g)
  {
    XorZero(2 * ClMul(a, g));
  }

  lemma {:induction false} ClMulAdds(a: nat, b: nat, g: nat)
    ensures ClMul(Xor(a, b), g) == Xor(ClMul(a, g), ClMul(b, g))
    decreases a + b
  {
    hide Xor;
    if a == 0 {
      XorZero(b);
      XorZero(ClMul(b, g));
    } else if b == 0 {
      XorZero(a);
      XorZero(ClMul(a, g));
    } else {
      var x, y := if a % 2 == 1 then g else 0, if b % 2 == 1 then g else 0;
      ClMulAdds(a / 2, b / 2, g);
      ClMulUnfold(a, g);
      ClMulUnfold(b, g);
      ClMulUnfold(Xor(a, b), g);
      XorUnfold(a, b);
      XorTwice(ClMul(a / 2, g), ClMul(b / 2, g));
      XorSwap(x, 2 * ClMul(a / 2, g), y, 2 * ClMul(b / 2, g));
      XorSelf(g);
      XorZero(g);
      XorZero(0);
    }
  }

  lemma ClMulUnfold(a: nat, g: nat)
    ensures ClMul(a, g) == Xor(if a % 2 == 1 then g else 0, 2 * ClMul(a / 2, g))
  {
    XorZero(0);
  }

  lemma CongruentSelf(v: nat, g: nat)
    ensures Congruent(v, v, g)
  {
    XorZero(v);
    assert Multiple(v, v, g, 0);
  }

  lemma CongruentAdds(v: nat, r: nat, v': nat, r': nat, g: nat)
    requires Congruent(v, r, g) && Congruent(v', r', g)
    ensures Congruent(Xor(v, v'), Xor(r, r'), g)
  {
    hide Xor;
    var q :| Multiple(v, r, g, q);
    var q' :| Multiple(v', r', g, q');
    XorSwap(ClMul(q, g), r, ClMul(q', g), r');
    ClMulAdds(q, q', g);
    assert Multiple(Xor(v, v'), Xor(r, r'), g, Xor(q, q'));
  }

  lemma {:induction false} CongruentScaled(v: nat, r: nat, g: nat, n: nat)
    requires Congruent(v, r, g)
    ensures Congruent(Pow2(n) * v, Pow2(n) * r, g)
    decreases n
  {
    hide Xor;
    if n > 0 {
      CongruentScaled(v, r, g, n - 1);
      var x: nat, y: nat := Pow2(n - 1) * v, Pow2(n - 1) * r;
      var q: nat :| Multiple(x, y, g, q);
      XorTwice(ClMul(q, g), y);
      ClMulTwice(q, g);
      assert Multiple(2 * x, 2 * y, g, 2 * q);
      assert Pow2(n) * v == 2 * x && Pow2(n) * r == 2 * y;
    }
  }

  lemma CongruentChain(a: nat, b: nat, c: nat, g: nat)
    requires Congruent(a, b, g) && Congruent(b, c, g)
    ensures Congruent(a, c, g)
  {
    hide Xor;
    CongruentAdds(a, b, b, c, g);
    var q :| Multiple(Xor(a, b), Xor(b, c), g, q);
    XorComm(a, b);
    XorCancel(b, a);
    XorCancel(b, c);
    XorAssoc(b, ClMul(q, g), Xor(b, c));
    XorComm(b, ClMul(q, g));
    XorAssoc(ClMul(q, g), b, Xor(b, c));
    assert Multiple(a, c, g, q);
  }

  // ---- only one remainder is small enough ---------------------------------------------------------

  lemma XorBelow(a: nat, b: nat, k: nat)
    requires b < Pow2(k)
    ensures Xor(Pow2(k) * a, b) == Pow2(k) * a + b
    decreases k
  {
    hide Xor;
    if k == 0 {
      XorZero(a);
    } else {
      XorBelow(a, b / 2, k - 1);
      Twice(Pow2(k - 1), a);
      DigitBelow(Pow2(k - 1) * a, b);
    }
  }

  lemma Twice(p: nat, a: nat)
    ensures 2 * p * a == 2 * (p * a)
  {
  }

  lemma DigitBelow(v: nat, b: nat)
    requires Xor(v, b / 2) == v + b / 2
    ensures Xor(2 * v, b) == 2 * v + b
  {
    hide Xor;
    XorUnfold(2 * v, b);
  }

  lemma TopStays(a: nat, b: nat, k: nat)
    requires Pow2(k) <= a < 2 * Pow2(k) && b < Pow2(k)
    ensures Pow2(k) <= Xor(a, b) < 2 * Pow2(k)
  {
    var low := a - Pow2(k);
    XorBelow(1, low, k);
    XorAssoc(Pow2(k), low, b);
    XorBound(low, b, k);
    XorBelow(1, Xor(low, b), k);
  }

  /** A multiple of the generator, other than none, has at least its degree. */
  lemma {:induction false} MultipleIsLong(q: nat, g: nat, w: nat) returns (k: nat)
    requires q > 0 && Pow2(w) <= g < 2 * Pow2(w)
    ensures k >= w && Pow2(k) <= ClMul(q, g) < 2 * Pow2(k) && (q > 1 ==> k > w)
    decreases q
  {
    hide Xor;
    if q == 1 {
      k := w;
      XorZero(g);
      XorZero(0);
      assert ClMul(1, g) == g by { ClMulUnfold(1, g); assert ClMul(0, g) == 0; }
    } else {
      var j := MultipleIsLong(q / 2, g, w);
      k := j + 1;
      ClMulUnfold(q, g);
      var half := 2 * ClMul(q / 2, g);
      XorZero(half);
      XorComm(g, half);
      if q % 2 == 1 {
        Pow2Rises(w + 1, k);
        TopStays(half, g, k);
      }
    }
  }

  lemma {:induction false} Pow2Rises(m: nat, n: nat)
    requires m <= n
    ensures Pow2(m) <= Pow2(n)
    decreases n
  {
    if m < n {
      Pow2Rises(m, n - 1);
    }
  }

  lemma RemainderIsUnique(v: nat, r: nat, r': nat, g: nat, w: nat)
    requires Pow2(w) <= g < 2 * Pow2(w) && r < Pow2(w) && r' < Pow2(w)
    requires Congruent(v, r, g) && Congruent(v, r', g)
    ensures r == r'
  {
    hide Xor;
    CongruentAdds(v, r, v, r', g);
    XorSelf(v);
    var q :| Multiple(0, Xor(r, r'), g, q);
    XorIsZero(ClMul(q, g), Xor(r, r'));
    XorBound(r, r', w);
    if q > 0 {
      var k := MultipleIsLong(q, g, w);
      Pow2Rises(w, k);
      assert false;
    }
    XorIsZero(r, r');
  }

  // ---- CRC-16 --------------------------------------------------------------------------------------

  /** x^16 + x^12 + x^5 + 1, the generator of ITU-T V.41. */
  const G16: nat := 0x11021

  /** x^8 + x^7 + x^4 + x^3 + 1 */
  const G8: nat := 0x199

  /** The bytes as one number, the first on top: the message's polynomial. */
  function Number(data: seq<Byte>): nat {
    if data == [] then 0 else 256 * Number(data[..|data| - 1]) + data[|data| - 1]
  }

  lemma BitReduces(c: nat)
    ensures Congruent(2 * (c % 0x10000), ShiftBit(c) % 0x10000, G16)
  {
    hide Xor, Congruent, Pow2;
    Pow2Values();
    TopBit(c, 0x8000);
    var low := 2 * c % 0x10000;
    if c / 0x8000 % 2 == 1 {
      XorMask16(2 * c, 0x1021);
      TopFoldsIn(low, 0x1021, 16);
    } else {
      CongruentSelf(low, G16);
    }
  }

  lemma TopBit(c: nat, half: nat)
    requires half > 0
    ensures 2 * (c % (2 * half)) == 2 * c % (2 * half) + if c / half % 2 == 1 then 2 * half else 0
    ensures c % (2 * half) / half == c / half % 2
  {
    var q, x := c / half, c % half;
    var h, b := q / 2, q % 2;
    Doubled(half, h);
    assert c == half * q + x;
    if b == 0 {
      assert q == 2 * h;
      DivModUnique(c, 2 * half, h, x);
      DivModUnique(2 * c, 2 * half, 2 * h, 2 * x);
      DivModUnique(x, half, 0, x);
    } else {
      assert q == 2 * h + 1;
      DivModUnique(c, 2 * half, h, half + x);
      DivModUnique(2 * c, 2 * half, 2 * h + 1, 2 * x);
      DivModUnique(half + x, half, 1, x);
    }
  }

  lemma Doubled(half: nat, h: nat)
    ensures half * (2 * h) == 2 * half * h && half * (2 * h + 1) == 2 * half * h + half
    ensures 2 * half * (2 * h) == 2 * (2 * half * h) && 2 * half * (2 * h + 1) == 2 * (2 * half * h) + 2 * half
  {
  }

  /** The bit shifted out is the generator's top one. */
  lemma TopFoldsIn(low: nat, p: nat, w: nat)
    requires low < Pow2(w) && p < Pow2(w)
    ensures Congruent(Pow2(w) + low, Xor(low, p), Pow2(w) + p)
  {
    hide Xor, Pow2;
    var top := Pow2(w);
    assert top * 1 == top;
    XorBelow(1, low, w);
    XorBelow(1, p, w);
    ClMulOne(top + p);
    XorComm(low, p);
    XorAssoc(top, p, Xor(p, low));
    XorCancel(p, low);
    assert Multiple(top + low, Xor(low, p), top + p, 1);
  }

  lemma ClMulOne(g: nat)
    ensures ClMul(1, g) == g
  {
    hide Xor;
    XorZero(g);
    ClMulUnfold(1, g);
    assert ClMul(0, g) == 0;
  }

  lemma {:induction false} BitsReduce(c: nat, n: nat)
    ensures Congruent(Pow2(n) * (c % 0x10000), ShiftBits(c, n) % 0x10000, G16)
    decreases n
  {
    hide Congruent, ShiftBit;
    if n == 0 {
      CongruentSelf(c % 0x10000, G16);
      assert Pow2(0) == 1;
    } else {
      BitReduces(c);
      CongruentScaled(2 * (c % 0x10000), ShiftBit(c) % 0x10000, G16, n - 1);
      assert Pow2(n) * (c % 0x10000) == Pow2(n - 1) * (2 * (c % 0x10000));
      BitsReduce(ShiftBit(c), n - 1);
      CongruentChain(Pow2(n) * (c % 0x10000), Pow2(n - 1) * (ShiftBit(c) % 0x10000), ShiftBits(c, n) % 0x10000, G16);
    }
  }

  lemma ByteReduces(c: nat, b: Byte)
    ensures Congruent(Xor(256 * (c % 0x10000), 0x10000 * (b as int)), TakeByte(c, b) % 0x10000, G16)
  {
    hide Xor, Congruent, ShiftBits;
    Pow2Values();
    BitsReduce(Xor(c, Top(b)), 8);
    XorMask16(c, Top(b));
    XorScaled(c % 0x10000, Top(b), 8);
  }

  /** The message times x^16, with sixteen ones over its first bits. */
  function Shifted(data: seq<Byte>): nat {
    Xor(0x10000 * Number(data), 0xFFFF * Pow2(8 * |data|))
  }

  lemma ShiftedGrows(data: seq<Byte>, b: Byte)
    ensures Shifted(data + [b]) == Xor(256 * Shifted(data), 0x10000 * (b as int))
  {
    hide Xor;
    Pow2Values();
    var more := data + [b];
    assert more[..|more| - 1] == data;
    var n, ones := Number(data), 0xFFFF * Pow2(8 * |data|);
    assert 8 * |more| == 8 * |data| + 8;
    Pow2Add(8 * |data|, 8);
    assert 0xFFFF * Pow2(8 * |more|) == 256 * ones by { assert 256 * ones == 0xFFFF * (Pow2(8 * |data|) * 256); }
    XorBelow(n, b, 8);
    XorScaled(256 * n, b, 16);
    XorScaled(0x10000 * n, ones, 8);
    XorAssoc(0x10000 * (256 * n), 0x10000 * (b as int), 256 * ones);
    XorComm(0x10000 * (b as int), 256 * ones);
    XorAssoc(0x10000 * (256 * n), 256 * ones, 0x10000 * (b as int));
  }

  lemma {:induction false} RegisterReduces(data: seq<Byte>)
    ensures Congruent(Shifted(data), Crc16(data), G16)
    decreases |data|
  {
    hide Xor, Congruent, TakeByte, Shifted;
    if data == [] {
      NothingShifted();
      CongruentSelf(0xFFFF, G16);
    } else {
      Pow2Values();
      var before, b := data[..|data| - 1], data[|data| - 1];
      assert data == before + [b];
      RegisterReduces(before);
      LastByte(0xFFFF, before, b);
      var c := Register(0xFFFF, before);
      CongruentScaled(Shifted(before), c % 0x10000, G16, 8);
      CongruentSelf(0x10000 * (b as int), G16);
      CongruentAdds(256 * Shifted(before), 256 * (c % 0x10000), 0x10000 * (b as int), 0x10000 * (b as int), G16);
      ShiftedGrows(before, b);
      ByteReduces(c, b);
      CongruentChain(Shifted(data), Xor(256 * (c % 0x10000), 0x10000 * (b as int)), Crc16(data), G16);
    }
  }

  lemma NothingShifted()
    ensures Shifted([]) == 0xFFFF && Crc16([]) == 0xFFFF
  {
    hide Xor;
    assert Pow2(8 * 0) == 1 && Number([]) == 0;
    XorZero(0xFFFF);
  }

  lemma LastByte(c: nat, before: seq<Byte>, b: Byte)
    ensures Register(c, before + [b]) == TakeByte(Register(c, before), b)
  {
    hide TakeByte;
    RegisterConcat(c, before, [b]);
    assert Register(Register(c, before), [b]) == Register(TakeByte(Register(c, before), b), [b][1..]);
  }

  /** CRC-16: the message shifted up by sixteen bits, its first sixteen bits inverted, is a multiple
      of the generator and the CRC; and no other number of sixteen bits is that remainder. */
  lemma Crc16IsRemainder(data: seq<Byte>)
    ensures exists q :: Shifted(data) == Xor(ClMul(q, 0x11021), Crc16(data))
    ensures forall q, r: nat :: r < 0x10000 && Shifted(data) == Xor(ClMul(q, 0x11021), r) ==> r == Crc16(data)
  {
    hide Xor, Shifted, Crc16;
    Pow2Values();
    RegisterReduces(data);
    var q :| Multiple(Shifted(data), Crc16(data), G16, q);
    forall q', r: nat | r < 0x10000 && Shifted(data) == Xor(ClMul(q', 0x11021), r) ensures r == Crc16(data) {
      assert Multiple(Shifted(data), r, G16, q');
      RemainderIsUnique(Shifted(data), r, Crc16(data), G16, 16);
    }
  }

  // ---- CRC-8 ---------------------------------------------------------------------------------------

  /** Characters as bytes. */
  function Codes(text: string): (data: seq<Byte>)
    requires forall i :: 0 <= i < |text| ==> text[i] < '\U{100}'
    ensures |data| == |text| && forall i :: 0 <= i < |text| ==> data[i] == text[i] as int
  {
    seq<Byte>(|text|, i requires 0 <= i < |text| => text[i] as int)
  }

  lemma XorMask8(a: nat, b: nat)
    ensures Xor(a, b) % 256 == Xor(a % 256, b % 256)
  {
    hide Xor;
    Pow2Values();
    forall c: nat ensures Low(c, 8) == c % 256 { LowHigh(c, 8); }
    XorLowHigh(a, b, 8);
  }

  lemma BitReduces8(c: nat)
    ensures Congruent(2 * (c % 256), ShiftBit8(c) % 256, G8)
  {
    hide Xor, Congruent, Pow2;
    Pow2Values();
    TopBit(c, 128);
    var low := 2 * c % 256;
    if c % 256 / 128 == 1 {
      XorMask8(2 * c, 0x99);
      TopFoldsIn(low, 0x99, 8);
    } else {
      CongruentSelf(low, G8);
    }
  }

  lemma {:induction false} BitsReduce8(c: nat, n: nat)
    ensures Congruent(Pow2(n) * (c % 256), ShiftBits8(c, n) % 256, G8)
    decreases n
  {
    hide Congruent, ShiftBit8;
    if n == 0 {
      CongruentSelf(c % 256, G8);
      assert Pow2(0) == 1;
    } else {
      BitReduces8(c);
      CongruentScaled(2 * (c % 256), ShiftBit8(c) % 256, G8, n - 1);
      assert Pow2(n) * (c % 256) == Pow2(n - 1) * (2 * (c % 256));
      BitsReduce8(ShiftBit8(c), n - 1);
      CongruentChain(Pow2(n) * (c % 256), Pow2(n - 1) * (ShiftBit8(c) % 256), ShiftBits8(c, n) % 256, G8);
    }
  }

  lemma {:induction false} LastChar(crc: nat, before: string, c: char)
    ensures Register8(crc, before + [c]) == ShiftBits8(Xor(Register8(crc, before), c as nat), 8)
    decreases |before|
  {
    hide Xor, ShiftBits8;
    if before == "" {
      assert [] + [c] == [c] && [c][1..] == [];
      assert Register8(crc, [c]) == Register8(ShiftBits8(Xor(crc, c as nat), 8), [c][1..]);
    } else {
      assert (before + [c])[1..] == before[1..] + [c];
      LastChar(ShiftBits8(Xor(crc, before[0] as nat), 8), before[1..], c);
    }
  }

  lemma {:induction false} Register8Reduces(text: string)
    requires forall i :: 0 <= i < |text| ==> text[i] < '\U{100}'
    ensures Congruent(256 * Number(Codes(text)), Crc8(text), G8)
    decreases |text|
  {
    hide Xor, Congruent, ShiftBits8;
    if text == "" {
      CongruentSelf(0, G8);
    } else {
      Pow2Values();
      var before, c := text[..|text| - 1], text[|text| - 1];
      assert text == before + [c] && c < '\U{100}';
      var b: Byte := c as int;
      Register8Reduces(before);
      LastChar(0, before, c);
      var r, n := Register8(0, before), Number(Codes(before));
      assert Codes(text)[..|text| - 1] == Codes(before);
      assert Number(Codes(text)) == 256 * n + b;
      XorBelow(n, b, 8);
      XorScaled(256 * n, b, 8);
      CongruentScaled(256 * n, r % 256, G8, 8);
      CongruentSelf(256 * b, G8);
      CongruentAdds(256 * (256 * n), 256 * (r % 256), 256 * b, 256 * b, G8);
      XorMask8(r, b);
      XorScaled(r % 256, b, 8);
      BitsReduce8(Xor(r, b), 8);
      CongruentChain(256 * Number(Codes(text)), 256 * (Xor(r, b) % 256), Crc8(text), G8);
    }
  }

  /** CRC-8: the text shifted up by eight bits is a multiple of the generator and the CRC; and no
      other number of eight bits is that remainder. */
  lemma Crc8IsRemainder(text: string)
    requires forall i :: 0 <= i < |text| ==> text[i] < '\U{100}'
    ensures exists q :: 256 * Number(Codes(text)) == Xor(ClMul(q, 0x199), Crc8(text))
    ensures forall q, r: nat :: r < 256 && 256 * Number(Codes(text)) == Xor(ClMul(q, 0x199), r) ==> r == Crc8(text)
  {
    hide Xor, Crc8, Codes;
    Pow2Values();
    Register8Reduces(text);
    var v := 256 * Number(Codes(text));
    var q :| Multiple(v, Crc8(text), G8, q);
    forall q', r: nat | r < 256 && v == Xor(ClMul(q', 0x199), r) ensures r == Crc8(text) {
      assert Multiple(v, r, G8, q');
      RemainderIsUnique(v, r, Crc8(text), G8, 8);
    }
  }

  /** What a PC-Link frame is made of: the empty message, and one bit through the register. */
  lemma CrcAnchors()
    ensures Crc16([]) == 0xFFFF && Crc8("") == 0
    ensures Register(0, [1]) % 0x10000 == 0x1021
  {
    hide Xor;
    Pow2Values();
    XorZero(256);
    XorZero(1);
    ShiftsWithoutFeedback(256, 7);
    ShiftBitsAdd(256, 7, 1);
    assert Pow2(7) == 128;
    assert Register(0, [1]) == Register(TakeByte(0, 1), [1][1..]);
    XorBelow(1, 0x1021, 16);
  }
}
