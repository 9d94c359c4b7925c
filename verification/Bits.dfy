/** Arithmetic on the unbounded non-negative integers the library computes with:
    exclusive or, powers of two and bit reversal. */
module Bits {

  type Byte = x: nat | x < 256

  function Pow2(n: nat): (p: nat)
    ensures p >= 1
  {
    if n == 0 then 1 else 2 * Pow2(n - 1)
  }

  /** The `^` of two non-negative integers of any width. */
  function Xor(a: nat, b: nat): nat
    decreases a + b
  {
    if a == 0 && b == 0 then 0
    else 2 * Xor(a / 2, b / 2) + (if a % 2 != b % 2 then 1 else 0)
  }

  lemma XorUnfold(a: nat, b: nat)
    ensures Xor(a, b) / 2 == Xor(a / 2, b / 2)
    ensures Xor(a, b) % 2 == (if a % 2 != b % 2 then 1 else 0)
  {
  }

  lemma {:induction false} XorComm(a: nat, b: nat)
    ensures Xor(a, b) == Xor(b, a)
    decreases a + b
  {
    if a != 0 || b != 0 {
      XorComm(a / 2, b / 2);
    }
  }

  lemma {:induction false} XorAssoc(a: nat, b: nat, c: nat)
    ensures Xor(Xor(a, b), c) == Xor(a, Xor(b, c))
    decreases a + b + c
  {
    if a + b + c != 0 {
      XorUnfold(a, b);
      XorUnfold(b, c);
      XorUnfold(Xor(a, b), c);
      XorUnfold(a, Xor(b, c));
      XorAssoc(a / 2, b / 2, c / 2);
    }
  }

  lemma {:induction false} XorZero(a: nat)
    ensures Xor(a, 0) == a && Xor(0, a) == a
  {
    if a != 0 {
      XorZero(a / 2);
    }
  }

  lemma {:induction false} XorSelf(a: nat)
    ensures Xor(a, a) == 0
  {
    if a != 0 {
      XorSelf(a / 2);
    }
  }

  lemma {:induction false} XorIsZero(a: nat, b: nat)
    requires Xor(a, b) == 0
    ensures a == b
    decreases a + b
  {
    if a + b != 0 {
      XorUnfold(a, b);
      XorIsZero(a / 2, b / 2);
    }
  }

  /** (a ^ b) ^ (c ^ d) == (a ^ c) ^ (b ^ d) */
  lemma XorSwap(a: nat, b: nat, c: nat, d: nat)
    ensures Xor(Xor(a, b), Xor(c, d)) == Xor(Xor(a, c), Xor(b, d))
  {
    XorAssoc(Xor(a, b), c, d);
    XorAssoc(a, b, c);
    XorComm(b, c);
    XorAssoc(a, c, b);
    XorAssoc(Xor(a, c), b, d);
  }

  /** a ^ (a ^ b) == b */
  lemma XorCancel(a: nat, b: nat)
    ensures Xor(a, Xor(a, b)) == b
  {
    XorAssoc(a, a, b);
    XorSelf(a);
    XorZero(b);
  }

  lemma NonZeroMultiple(m: int, d: int)
    requires m >= 0 && d != 0
    ensures m * d >= m || m * d <= -m
  {
    if d >= 1 {
      assert m * d == m + m * (d - 1);
    } else {
      assert m * -d == m + m * (-d - 1);
    }
  }

  lemma DivModUnique(a: nat, m: nat, q: nat, r: nat)
    requires a == m * q + r && r < m
    ensures a / m == q && a % m == r
  {
    var d := a / m - q;
    assert m * (a / m) + a % m == a;
    assert m * d == r - a % m;
    if d != 0 {
      NonZeroMultiple(m, d);
      assert false;
    }
  }

  lemma ModDouble(a: nat, m: nat)
    requires m >= 1
    ensures a % (2 * m) == 2 * ((a / 2) % m) + a % 2
    ensures a / (2 * m) == (a / 2) / m
  {
    var h, r := a / 2, a % 2;
    var q, s := h / m, h % m;
    assert h == m * q + s;
    assert a == (2 * m) * q + (2 * s + r);
    DivModUnique(a, 2 * m, q, 2 * s + r);
  }

  /** The k lowest bits, and the bits above them. */
  function Low(a: nat, k: nat): nat
    decreases k, a
  {
    if k == 0 then 0 else 2 * Low(a / 2, k - 1) + a % 2
  }

  function High(a: nat, k: nat): nat
    decreases k, a
  {
    if k == 0 then a else High(a / 2, k - 1)
  }

  lemma {:induction false} LowHigh(a: nat, k: nat)
    ensures Low(a, k) == a % Pow2(k) && High(a, k) == a / Pow2(k)
    decreases k
  {
    if k > 0 {
      LowHigh(a / 2, k - 1);
      ModDouble(a, Pow2(k - 1));
    }
  }

  lemma {:induction false} XorLowHigh(a: nat, b: nat, k: nat)
    ensures Low(Xor(a, b), k) == Xor(Low(a, k), Low(b, k))
    ensures High(Xor(a, b), k) == Xor(High(a, k), High(b, k))
    decreases k
  {
    if k > 0 {
      hide Xor;
      XorUnfold(a, b);
      XorLowHigh(a / 2, b / 2, k - 1);
      XorJoin(Low(a / 2, k - 1), a % 2, Low(b / 2, k - 1), b % 2);
    }
  }

  /** `^` of two numbers given by their lowest bit and the rest. */
  lemma XorJoin(a: nat, x: nat, b: nat, y: nat)
    requires x < 2 && y < 2
    ensures Xor(2 * a + x, 2 * b + y) == 2 * Xor(a, b) + if x != y then 1 else 0
  {
    assert (2 * a + x) / 2 == a && (2 * b + y) / 2 == b;
  }

  /** Masking to sixteen bits, and reading bit 15, both commute with `^`. */
  lemma XorMask16(a: nat, b: nat)
    ensures Xor(a, b) % 0x10000 == Xor(a % 0x10000, b % 0x10000)
    ensures Xor(a, b) / 0x8000 == Xor(a / 0x8000, b / 0x8000)
  {
    Pow2Values();
    forall c: nat
      ensures Low(c, 16) == c % 0x10000 && High(c, 15) == c / 0x8000
    {
      LowHigh(c, 16);
      LowHigh(c, 15);
    }
    XorLowHigh(a, b, 16);
    XorLowHigh(a, b, 15);
  }

  lemma {:induction false} XorBound(a: nat, b: nat, k: nat)
    requires a < Pow2(k) && b < Pow2(k)
    ensures Xor(a, b) < Pow2(k)
    decreases k
  {
    if k > 0 {
      XorUnfold(a, b);
      XorBound(a / 2, b / 2, k - 1);
    }
  }

  lemma Pow2Values()
    ensures Pow2(2) == 4 && Pow2(8) == 0x100 && Pow2(15) == 0x8000 && Pow2(16) == 0x10000
    ensures Pow2(20) == 0x100000 && Pow2(21) == 0x200000 && Pow2(22) == 0x400000 && Pow2(24) == 0x1000000
  {
    assert Pow2(4) == 16 && Pow2(6) == 64 && Pow2(10) == 0x400 && Pow2(12) == 0x1000;
    assert Pow2(14) == 0x4000 && Pow2(18) == 0x40000;
  }

  /** The lowest `width` bits of `v` in reverse order. */
  function Rev(v: nat, width: nat): nat
    decreases width, v
  {
    if width == 0 then 0 else (v % 2) * Pow2(width - 1) + Rev(v / 2, width - 1)
  }

  lemma {:induction false} RevBound(v: nat, width: nat)
    ensures Rev(v, width) < Pow2(width)
    decreases width
  {
    if width > 0 {
      RevBound(v / 2, width - 1);
    }
  }

  lemma {:induction false} Pow2Add(a: nat, b: nat)
    ensures Pow2(a + b) == Pow2(a) * Pow2(b)
  {
    if a > 0 {
      Pow2Add(a - 1, b);
    }
  }

  lemma RevSplitStep(b: nat, p: nat, q: nat, half: nat, rest: nat)
    ensures (b * p + half) * q + rest == b * (p * q) + (half * q + rest)
  {
    assert (b * p) * q == b * (p * q);
  }

  /** Reversing a number swaps its two halves and reverses each. */
  lemma {:induction false} RevSplit(hi: nat, lo: nat, w: nat, k: nat)
    requires lo < Pow2(k)
    ensures Rev(hi * Pow2(k) + lo, w + k) == Rev(lo, k) * Pow2(w) + Rev(hi, w)
    decreases k
  {
    if k == 0 {
      assert Pow2(k) == 1;
    } else {
      var p := Pow2(k - 1);
      var v := hi * (2 * p) + lo;
      assert v == 2 * (hi * p) + lo;
      assert v % 2 == lo % 2 && v / 2 == hi * p + lo / 2;
      RevSplit(hi, lo / 2, w, k - 1);
      Pow2Add(k - 1, w);
      RevSplitStep(lo % 2, p, Pow2(w), Rev(lo / 2, k - 1), Rev(hi, w));
      assert w + (k - 1) == w + k - 1;
    }
  }

  lemma RevUnfold(v: nat, width: nat)
    requires width > 0
    ensures Rev(v, width) == v % 2 * Pow2(width - 1) + Rev(v / 2, width - 1)
    ensures Pow2(width) == 2 * Pow2(width - 1)
  {
  }

  lemma RevBit(b: nat)
    requires b < 2
    ensures Rev(b, 1) == b && Pow2(1) == 2
  {
    assert Pow2(0) == 1;
  }

  /** Reversing twice gives the number back. */
  lemma {:induction false} RevInvolution(v: nat, width: nat)
    requires v < Pow2(width)
    ensures Rev(Rev(v, width), width) == v
    decreases width
  {
    if width > 0 {
      hide Pow2, Rev;
      RevUnfold(v, width);
      RevInvolution(v / 2, width - 1);
      RevBound(v / 2, width - 1);
      RevBit(v % 2);
      var half := Rev(v / 2, width - 1);
      RevSplit(v % 2, half, 1, width - 1);
      assert 1 + (width - 1) == width;
      assert Rev(half, width - 1) * 2 + v % 2 == v;
    } else {
      RevNothing(v);
    }
  }

  /** What a reversing loop has gathered in `acc`, and what the rest of `v` will add below it. */
  function Gathered(acc: nat, v: nat, width: nat): nat {
    acc * Pow2(width) + Rev(v, width)
  }

  lemma GatherBounds(v: nat, width: nat, acc: nat)
    ensures Gathered(0, v, width) == Rev(v, width) && Gathered(acc, v, 0) == acc
  {
    RevNothing(v);
    assert acc * 1 == acc;
  }

  /** One turn of a reversing loop moves the lowest bit of `v` under `acc`. */
  lemma ReverseStep(acc: nat, v: nat, width: nat)
    requires width > 0
    ensures Gathered(2 * acc + v % 2, v / 2, width - 1) == Gathered(acc, v, width)
  {
    var p := Pow2(width - 1);
    assert (2 * acc + v % 2) * p == acc * (2 * p) + (v % 2) * p;
  }

  /** `_reverse_bits` and `_reverse_24`: shift the reversed value up, the rest down. */
  method ReverseBits(value: nat, width: nat) returns (reversedValue: nat)
    ensures reversedValue == Rev(value, width)
  {
    hide Rev, Pow2, Gathered;
    reversedValue := 0;
    var v := value;
    GatherBounds(v, width, 0);
    for i := 0 to width
      invariant Gathered(reversedValue, v, width - i) == Rev(value, width)
    {
      ReverseStep(reversedValue, v, width - i);
      assert width - i - 1 == width - (i + 1);
      reversedValue := 2 * reversedValue + v % 2;
      v := v / 2;
    }
    GatherBounds(v, 0, reversedValue);
  }

  lemma RevNothing(v: nat)
    ensures Pow2(0) == 1 && Rev(v, 0) == 0
  {
  }

  lemma BitAbove(b: nat, p: nat, q: nat, r: nat)
    requires q > 0
    ensures (b * (p * q) + r) / q == b * p + r / q
  {
    var x := r / q;
    assert r == q * x + r % q;
    assert b * (p * q) == (b * p) * q;
    assert b * (p * q) + r == q * (b * p + x) + r % q;
    DivModUnique(b * (p * q) + r, q, b * p + x, r % q);
  }

  /** Bit `i` of the reversal is bit `width - 1 - i` of the number. */
  lemma {:induction false} RevBits(v: nat, width: nat, i: nat)
    requires i < width
    ensures Rev(v, width) / Pow2(i) % 2 == v / Pow2(width - 1 - i) % 2
    decreases width
  {
    hide Rev, Pow2;
    if i == width - 1 {
      TopBitOfRev(v, width);
    } else {
      var k := width - 1 - i;
      LowerBitOfRev(v, k, i);
      RevBits(v / 2, width - 1, i);
      HalfShifted(v, k - 1);
    }
  }

  lemma LowerBitOfRev(v: nat, k: nat, i: nat)
    requires k > 0
    ensures Rev(v, k + i + 1) / Pow2(i) % 2 == Rev(v / 2, k + i) / Pow2(i) % 2
  {
    hide Rev, Pow2;
    RevUnfold(v, k + i + 1);
    RevUnfold(0, k);
    Pow2Add(k, i);
    var p, q, half, rest := Pow2(k), Pow2(i), Pow2(k - 1), Rev(v / 2, k + i);
    assert Rev(v, k + i + 1) == v % 2 * (p * q) + rest;
    BitAbove(v % 2, p, q, rest);
    EvenMultiple(v % 2, half, rest / q);
  }

  lemma TopBitOfRev(v: nat, width: nat)
    requires width > 0
    ensures Rev(v, width) / Pow2(width - 1) % 2 == v / Pow2(0) % 2
  {
    hide Rev, Pow2;
    RevUnfold(v, width);
    RevBound(v / 2, width - 1);
    DivModUnique(Rev(v, width), Pow2(width - 1), v % 2, Rev(v / 2, width - 1));
    NoShift(v);
  }

  lemma NoShift(v: nat)
    ensures v / Pow2(0) == v
  {
  }

  lemma EvenMultiple(b: nat, p: nat, x: nat)
    ensures (b * (2 * p) + x) % 2 == x % 2
  {
    assert b * (2 * p) == 2 * (b * p);
  }

  lemma HalfShifted(v: nat, k: nat)
    ensures v / 2 / Pow2(k) == v / Pow2(k + 1)
  {
    ModDouble(v, Pow2(k));
  }
}
