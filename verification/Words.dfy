/** Unsigned machine words as natural numbers.

    C's unsigned operators are written out: `+` and `*` reduce modulo the width,
    `>>` by a constant is a division, and `&`, `|`, `^` are defined bit by bit.
    The lemmas connect the bitwise operators with arithmetic. */
module Words {

  type Byte = n: nat | n < 0x100
  type Word32 = n: nat | n < 0x1_0000_0000
  type Word64 = n: nat | n < 0x1_0000_0000_0000_0000

  const W32: nat := 0x1_0000_0000
  const W64: nat := 0x1_0000_0000_0000_0000

  function Add32(a: nat, b: nat): Word32 { (a + b) % W32 }
  function Mul32(a: nat, b: nat): Word32 { (a * b) % W32 }
  function Add64(a: nat, b: nat): Word64 { (a + b) % W64 }
  function Mul64(a: nat, b: nat): Word64 { (a * b) % W64 }

  function Pow2(k: nat): (p: nat)
    ensures p > 0
  {
    if k == 0 then 1 else 2 * Pow2(k - 1)
  }

  lemma {:induction false} Pow2Add(j: nat, k: nat)
    ensures Pow2(j + k) == Pow2(j) * Pow2(k)
  {
    if j == 0 {
    } else {
      Pow2Add(j - 1, k);
      calc {
        Pow2(j + k);
        2 * Pow2(j - 1 + k);
        2 * (Pow2(j - 1) * Pow2(k));
        (2 * Pow2(j - 1)) * Pow2(k);
      }
    }
  }

  lemma {:induction false} QuotientIs(x: int, m: int, q: int, r: int)
    requires m > 0 && x == m * q + r && 0 <= r < m
    ensures x / m == q && x % m == r
  {
    var k := x / m - q;
    assert m * k == r - x % m;
  }

  /** `x >> k` */
  function Shr(x: nat, k: nat): nat
  {
    QuotientNat(x, Pow2(k));
    x / Pow2(k)
  }

  lemma {:induction false} QuotientNat(x: nat, d: nat)
    requires d > 0
    ensures x / d >= 0
  {
    var q, r := x / d, x % d;
    assert x == d * q + r;
    NegativeMultiple(d, q, r);
  }

  lemma {:induction false} NegativeMultiple(d: int, q: int, r: int)
    requires d > 0 && r < d && d * q + r >= 0
    ensures q >= 0
  {
  }

  lemma {:induction false} Pow2Square(k: nat, p: nat, k2: nat, p2: nat)
    requires Pow2(k) == p && k2 == k + k && p2 == p * p
    ensures Pow2(k2) == p2
  {
    Pow2Add(k, k);
  }

  lemma {:induction false} Pow2Literals()
    ensures Pow2(8) == 0x100 && Pow2(16) == 0x1_0000 && Pow2(24) == 0x100_0000
    ensures Pow2(26) == 0x400_0000 && Pow2(32) == W32 && Pow2(64) == W64
  {
    assert Pow2(2) == 4;
    Pow2Square(2, 4, 4, 16);
    Pow2Square(4, 16, 8, 0x100);
    Pow2Square(8, 0x100, 16, 0x1_0000);
    Pow2Add(16, 8);
    Pow2Add(24, 2);
    Pow2Square(16, 0x1_0000, 32, W32);
    Pow2Square(32, W32, 64, W64);
  }

  // --- Bitwise operators -------------------------------------------------

  datatype BitOp = AndOp | OrOp | XorOp

  function Bit(op: BitOp, x: nat, y: nat): (b: nat)
    requires x < 2 && y < 2
    ensures b < 2
  {
    match op
    case AndOp => if x == 1 then y else 0
    case OrOp => if x == 1 then 1 else y
    case XorOp => if x == y then 0 else 1
  }

  function Bitwise(op: BitOp, a: nat, b: nat): nat
    decreases a + b
  {
    if a == 0 && b == 0 then 0
    else 2 * Bitwise(op, a / 2, b / 2) + Bit(op, a % 2, b % 2)
  }

  function And(a: nat, b: nat): nat { Bitwise(AndOp, a, b) }
  function Or(a: nat, b: nat): nat { Bitwise(OrOp, a, b) }
  function Xor(a: nat, b: nat): nat { Bitwise(XorOp, a, b) }

  /** Bits below position `k` and bits from position `k` on do not interact. */
  lemma {:induction false} BitwiseSplit(op: BitOp, k: nat, a: nat, b: nat, c: nat, d: nat)
    requires a < Pow2(k) && b < Pow2(k)
    ensures Bitwise(op, a, b) < Pow2(k)
    ensures Bitwise(op, a + Pow2(k) * c, b + Pow2(k) * d) == Bitwise(op, a, b) + Pow2(k) * Bitwise(op, c, d)
  {
    SplitShifted(op, k, a, b, c, d);
    ShlIsMul(c, k);
    ShlIsMul(d, k);
    ShlIsMul(Bitwise(op, c, d), k);
  }

  /** `a << k` by repeated doubling. */
  function Shl(a: nat, k: nat): nat
  {
    if k == 0 then a else 2 * Shl(a, k - 1)
  }

  lemma {:induction false} ShlIsMul(a: nat, k: nat)
    ensures Shl(a, k) == Pow2(k) * a
  {
    if k > 0 {
      ShlIsMul(a, k - 1);
      MulAssoc(2, Pow2(k - 1), a);
    }
  }

  lemma {:induction false} SplitShifted(op: BitOp, k: nat, a: nat, b: nat, c: nat, d: nat)
    requires a < Pow2(k) && b < Pow2(k)
    ensures Bitwise(op, a, b) < Pow2(k)
    ensures Bitwise(op, a + Shl(c, k), b + Shl(d, k)) == Bitwise(op, a, b) + Shl(Bitwise(op, c, d), k)
  {
    hide Bitwise;
    if k == 0 {
      assert a == 0 && b == 0;
      Unfold(op, 0, 0);
    } else {
      SplitShifted(op, k - 1, a / 2, b / 2, c, d);
      SplitStep(op, Pow2(k - 1), a, b, Shl(c, k - 1), Shl(d, k - 1), Shl(Bitwise(op, c, d), k - 1));
    }
  }

  lemma {:induction false} SplitStep(op: BitOp, p: nat, a: nat, b: nat, x: nat, y: nat, z: nat)
    requires Bitwise(op, a / 2, b / 2) < p
    requires Bitwise(op, a / 2 + x, b / 2 + y) == Bitwise(op, a / 2, b / 2) + z
    ensures Bitwise(op, a, b) < 2 * p
    ensures Bitwise(op, a + 2 * x, b + 2 * y) == Bitwise(op, a, b) + 2 * z
  {
    Unfold(op, a, b);
    Unfold(op, a + 2 * x, b + 2 * y);
    assert (a + 2 * x) / 2 == a / 2 + x && (b + 2 * y) / 2 == b / 2 + y;
    assert (a + 2 * x) % 2 == a % 2 && (b + 2 * y) % 2 == b % 2;
  }

  lemma {:induction false} MulAssoc(a: int, b: int, c: int)
    ensures a * b * c == a * (b * c)
  {
  }

  lemma {:induction false} Unfold(op: BitOp, a: nat, b: nat)
    ensures Bitwise(op, a, b) == 2 * Bitwise(op, a / 2, b / 2) + Bit(op, a % 2, b % 2)
  {
  }

  lemma {:induction false} BitwiseZero(op: BitOp, a: nat)
    ensures Bitwise(op, a, 0) == (if op == AndOp then 0 else a)
    ensures Bitwise(op, 0, a) == (if op == AndOp then 0 else a)
  {
    if a > 0 {
      BitwiseZero(op, a / 2);
    }
  }

  lemma {:induction false} AndOnes(k: nat, a: nat)
    requires a < Pow2(k)
    ensures And(a, Pow2(k) - 1) == a
  {
    if k > 0 {
      AndOnes(k - 1, a / 2);
      Unfold(AndOp, a, Pow2(k) - 1);
    }
  }

  /** Masking with 2^k - 1 is reduction modulo 2^k. */
  lemma {:induction false} AndMask(k: nat, a: nat)
    ensures And(a, Pow2(k) - 1) == a % Pow2(k)
  {
    hide Bitwise, Pow2;
    var p := Pow2(k);
    var q, r := a / p, a % p;
    assert a == r + p * q;
    assert p - 1 == p - 1 + p * 0;
    BitwiseSplit(AndOp, k, r, p - 1, q, 0);
    AndOnes(k, r);
    BitwiseZero(AndOp, q);
    assert p * 0 == 0;
  }

  /** `low | (high << k)` is a sum when the operands do not overlap. */
  lemma {:induction false} OrDisjoint(k: nat, low: nat, high: nat)
    requires low < Pow2(k)
    ensures Or(low, Pow2(k) * high) == low + Pow2(k) * high
    ensures Or(Pow2(k) * high, low) == low + Pow2(k) * high
  {
    hide Bitwise, Pow2;
    BitwiseSplit(OrOp, k, low, 0, 0, high);
    BitwiseSplit(OrOp, k, 0, low, high, 0);
    BitwiseZero(OrOp, low);
    BitwiseZero(OrOp, high);
    assert low + Pow2(k) * 0 == low && 0 + Pow2(k) * high == Pow2(k) * high;
  }

  lemma {:induction false} BitwiseBound(op: BitOp, k: nat, a: nat, b: nat)
    requires a < Pow2(k) && b < Pow2(k)
    ensures Bitwise(op, a, b) < Pow2(k)
  {
    BitwiseSplit(op, k, a, b, 0, 0);
  }

  /** Exclusive or with the same word twice gives the first word back. */
  lemma {:induction false} XorCancel(a: nat, b: nat)
    ensures Xor(Xor(a, b), b) == a
    decreases a + b
  {
    if a > 0 || b > 0 {
      XorCancel(a / 2, b / 2);
      var z := Xor(a, b);
      assert z == 2 * Xor(a / 2, b / 2) + Bit(XorOp, a % 2, b % 2);
      assert z / 2 == Xor(a / 2, b / 2) && z % 2 == Bit(XorOp, a % 2, b % 2);
      Unfold(XorOp, z, b);
    }
  }

  function XorByte(a: Byte, b: Byte): (r: Byte)
    ensures Xor(r, b) == a
  {
    Pow2Literals();
    BitwiseBound(XorOp, 8, a, b);
    XorCancel(a, b);
    Xor(a, b)
  }

  /** The bitwise operators as sums. */
  lemma {:induction false} BitwiseSums(a: nat, b: nat)
    ensures Xor(a, b) + 2 * And(a, b) == a + b && Or(a, b) + And(a, b) == a + b
    decreases a + b
  {
    hide Bitwise;
    if a == 0 && b == 0 {
      BitwiseZero(XorOp, 0); BitwiseZero(AndOp, 0); BitwiseZero(OrOp, 0);
    } else {
      BitwiseSums(a / 2, b / 2);
      Unfold(XorOp, a, b); Unfold(AndOp, a, b); Unfold(OrOp, a, b);
    }
  }

  // --- By hexadecimal digits ----------------------------------------------------------------

  /** The bit of weight `w`, and what is below it. */
  function Above(w: nat, a: nat): nat { if a >= w then 1 else 0 }
  function Under(w: nat, a: nat): nat { if a >= w then a - w else a }

  /** `w` if the numbers differ in the bit of weight `w`. */
  function Apart(w: nat, a: nat, b: nat): nat { if (a >= w) == (b >= w) then 0 else w }

  /** Exclusive or of two hexadecimal digits. */
  function XorDigit(a: nat, b: nat): nat
  {
    var a', b' := Under(8, a), Under(8, b);
    var a'', b'' := Under(4, a'), Under(4, b');
    Apart(8, a, b) + Apart(4, a', b') + Apart(2, a'', b'') + Apart(1, Under(2, a''), Under(2, b''))
  }

  lemma {:induction false} XorTop(k: nat, w: nat, a: nat, b: nat)
    requires w == Pow2(k) && a < 2 * w && b < 2 * w
    ensures Xor(a, b) == Apart(w, a, b) + Xor(Under(w, a), Under(w, b))
  {
    hide Pow2, Bitwise;
    BitwiseSplit(XorOp, k, Under(w, a), Under(w, b), Above(w, a), Above(w, b));
    OneBit(Above(w, a), Above(w, b));
  }

  lemma {:induction false} OneBit(a: nat, b: nat)
    requires a < 2 && b < 2
    ensures Xor(a, b) == if a == b then 0 else 1
  {
    Unfold(XorOp, a, b);
  }

  lemma {:induction false} XorOfDigits(a: nat, b: nat)
    requires a < 16 && b < 16
    ensures Xor(a, b) == XorDigit(a, b)
  {
    assert Pow2(0) == 1 && Pow2(1) == 2 && Pow2(2) == 4 && Pow2(3) == 8;
    hide Bitwise, Pow2, Apart, Xor;
    XorTop(3, 8, a, b);
    var a', b' := Under(8, a), Under(8, b);
    XorTop(2, 4, a', b');
    var a'', b'' := Under(4, a'), Under(4, b');
    XorTop(1, 2, a'', b'');
    XorTop(0, 1, Under(2, a''), Under(2, b''));
    OneBit(0, 0);
  }

  /** Digit by digit from the front. */
  lemma {:induction false} XorHex(x: nat, y: nat, z: nat, p: nat, q: nat, r: nat, a: nat, b: nat, c: nat)
    requires Xor(p, q) == r && a < 16 && b < 16 && XorDigit(a, b) == c
    requires x == 16 * p + a && y == 16 * q + b && z == 16 * r + c
    ensures Xor(x, y) == z
  {
    hide Bitwise, XorDigit;
    XorOfDigits(a, b);
    assert Pow2(4) == 16 by { assert Pow2(2) == 4; }
    BitwiseSplit(XorOp, 4, a, b, p, q);
  }
}
